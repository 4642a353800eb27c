/**
 * `ASTAnalyzer`: the structural checks run on a parsed repository. Reading
 * files, `ast.parse` and `ast.walk` are outside the model: a parsed file is
 * given as the sequence of nodes the walk visits, in visiting order, each
 * reduced to the few node kinds the analyzer looks at.
 */
module AstTools {
  import opened Wrappers
  import opened Text

  /** The value of an `ast.Constant`: a string, or anything else. */
  datatype ConstValue = StrValue(s: string) | OtherValue

  /** An expression: `ast.Name`, `ast.Attribute`, `ast.Constant`, or any other kind. */
  datatype Expr =
    | Name(id: string)
    | Attribute(value: Expr, attr: string)
    | Constant(constant: ConstValue)
    | OtherExpr

  /**
   * A node visited by `ast.walk`: a call (callee, positional arguments and
   * line number), a class definition (its bases and its source segment, which
   * `ast.get_source_segment` may fail to give), or any other node.
   */
  datatype AstNode =
    | Call(func: Expr, args: seq<Expr>, line: nat)
    | ClassDef(bases: seq<Expr>, segment: Option<string>)
    | OtherNode

  // ---------------------------------------------------------------------
  // Names
  // ---------------------------------------------------------------------

  /** `_get_name`: a name's id, an attribute's last component, otherwise nothing. */
  function GetName(e: Expr): (r: Option<string>)
    ensures r.Some? <==> e.Name? || e.Attribute?
    ensures e.Name? ==> r == Some(e.id)
    ensures e.Attribute? ==> r == Some(e.attr)
  {
    match e
    case Name(id) => Some(id)
    case Attribute(_, attr) => Some(attr)
    case _ => None
  }

  /**
   * `_get_full_name`: the dotted name of an attribute chain. A base without a
   * name, or whose name is the empty string (falsy), contributes nothing.
   */
  function GetFullName(e: Expr): (r: Option<string>)
    ensures r.Some? <==> e.Name? || e.Attribute?
    ensures e.Name? ==> r == Some(e.id)
  {
    match e
    case Name(id) => Some(id)
    case Attribute(value, attr) =>
      var valueName := GetFullName(value);
      if valueName.Some? && valueName.value != "" then Some(valueName.value + "." + attr) else Some(attr)
    case _ => None
  }

  /** `a.b.c` as an expression: a name followed by attribute accesses. */
  function Dotted(head: string, attrs: seq<string>): Expr {
    if attrs == [] then Name(head) else Attribute(Dotted(head, attrs[..|attrs| - 1]), attrs[|attrs| - 1])
  }

  /** The full name of `a.b.c` is `"a.b.c"` when the head is not empty. */
  lemma {:induction false} FullNameOfDotted(head: string, attrs: seq<string>)
    requires head != ""
    ensures GetFullName(Dotted(head, attrs)) == Some(Join(".", [head] + attrs))
  {
    if attrs != [] {
      var init := attrs[..|attrs| - 1];
      FullNameOfDotted(head, init);
      JoinSnoc(".", [head] + init, attrs[|attrs| - 1]);
      assert [head] + init + [attrs[|attrs| - 1]] == [head] + attrs;
    }
  }

  /** An attribute whose base has no name, or the empty name, is named by the attribute alone. */
  lemma UnnamedBaseKeepsAttr(base: Expr, attr: string)
    requires GetFullName(base).None? || GetFullName(base) == Some("")
    ensures GetFullName(Attribute(base, attr)) == Some(attr)
  {
  }

  lemma {:induction false} JoinSnoc(sep: string, parts: seq<string>, last: string)
    requires |parts| >= 1
    ensures Join(sep, parts + [last]) == Join(sep, parts) + sep + last
  {
    if |parts| == 1 {
      assert (parts + [last])[1..] == [last];
    } else {
      assert (parts + [last])[1..] == parts[1..] + [last];
      JoinSnoc(sep, parts[1..], last);
    }
  }

  /** The short name is always the tail of the full name. */
  lemma {:induction false} NameEndsFullName(e: Expr)
    requires e.Name? || e.Attribute?
    ensures var full := GetFullName(e).value; var short := GetName(e).value;
            |short| <= |full| && full[|full| - |short|..] == short
  {
  }

  /** `_extract_string_arg`: the value of a string constant, otherwise nothing. */
  function ExtractStringArg(e: Expr): (r: Option<string>)
    ensures r.Some? <==> e.Constant? && e.constant.StrValue?
    ensures r.Some? ==> r.value == e.constant.s
  {
    if e.Constant? && e.constant.StrValue? then Some(e.constant.s) else None
  }

  /** A string argument that Python treats as true: present and non-empty. */
  predicate IsNamedArg(e: Expr) {
    ExtractStringArg(e).Some? && ExtractStringArg(e).value != ""
  }

  // ---------------------------------------------------------------------
  // Fan-out and fan-in over an edge list
  // ---------------------------------------------------------------------

  /** Two edges (distinct positions, duplicates included) leave the same node. */
  predicate HasSharedSource(edges: seq<(string, string)>) {
    exists i, j :: 0 <= i < j < |edges| && edges[i].0 == edges[j].0
  }

  /** Two edges (distinct positions, duplicates included) enter the same node. */
  predicate HasSharedTarget(edges: seq<(string, string)>) {
    exists i, j :: 0 <= i < j < |edges| && edges[i].1 == edges[j].1
  }

  /** Each edge reversed. */
  function Swapped(edges: seq<(string, string)>): (r: seq<(string, string)>)
    ensures |r| == |edges|
    ensures forall k :: 0 <= k < |edges| ==> r[k] == (edges[k].1, edges[k].0)
  {
    if edges == [] then [] else [(edges[0].1, edges[0].0)] + Swapped(edges[1..])
  }

  /**
   * The `defaultdict(list)` the detectors fill: each first component mapped
   * to the second components paired with it, in edge order.
   */
  function Group(pairs: seq<(string, string)>): map<string, seq<string>> {
    if pairs == [] then map[]
    else
      var init := Group(pairs[..|pairs| - 1]);
      var (s, t) := pairs[|pairs| - 1];
      init[s := (if s in init then init[s] else []) + [t]]
  }

  /** The groups are keyed by exactly the first components, and none is empty. */
  lemma {:induction false} GroupKeys(pairs: seq<(string, string)>)
    ensures forall s :: s in Group(pairs) <==> exists k :: 0 <= k < |pairs| && pairs[k].0 == s
    ensures forall s :: s in Group(pairs) ==> |Group(pairs)[s]| >= 1
  {
    if pairs != [] {
      var init := pairs[..|pairs| - 1];
      GroupKeys(init);
      assert forall k :: 0 <= k < |init| ==> init[k] == pairs[k];
    }
  }

  /** Some key of the grouping holds more than one element. */
  predicate SomeGroupRepeats(g: map<string, seq<string>>) {
    exists s :: s in g && |g[s]| > 1
  }

  /** Appending a pair keeps every group and never shrinks one. */
  lemma GroupGrows(pairs: seq<(string, string)>)
    requires pairs != []
    ensures forall x :: x in Group(pairs[..|pairs| - 1]) ==>
              x in Group(pairs) && |Group(pairs)[x]| >= |Group(pairs[..|pairs| - 1])[x]|
  {
    GroupKeys(pairs[..|pairs| - 1]);
  }

  /** Two pairs sharing a first component put two elements in one group. */
  lemma {:induction false} SharedSourceRepeats(pairs: seq<(string, string)>)
    requires HasSharedSource(pairs)
    ensures SomeGroupRepeats(Group(pairs))
  {
    var n := |pairs| - 1;
    var init := pairs[..n];
    var g, g' := Group(init), Group(pairs);
    GroupGrows(pairs);
    GroupKeys(init);
    var i, j :| 0 <= i < j < |pairs| && pairs[i].0 == pairs[j].0;
    if j < n {
      assert init[i].0 == init[j].0;
      SharedSourceRepeats(init);
      var x :| x in g && |g[x]| > 1;
      assert x in g' && |g'[x]| > 1;
    } else {
      assert init[i].0 == pairs[n].0;
      assert pairs[n].0 in g;
      assert |g'[pairs[n].0]| > 1;
    }
  }

  /** A group with two elements comes from two pairs sharing their first component. */
  lemma {:induction false} RepeatsShareSource(pairs: seq<(string, string)>)
    requires SomeGroupRepeats(Group(pairs))
    ensures HasSharedSource(pairs)
  {
    var n := |pairs| - 1;
    var init := pairs[..n];
    var g, g' := Group(init), Group(pairs);
    var s := pairs[n].0;
    GroupKeys(init);
    var x :| x in g' && |g'[x]| > 1;
    if x != s {
      assert g'[x] == g[x];
      RepeatsShareSource(init);
      var i, j :| 0 <= i < j < n && init[i].0 == init[j].0;
      assert pairs[i].0 == pairs[j].0;
    } else {
      assert s in g;
      var k :| 0 <= k < n && init[k].0 == s;
      assert pairs[k].0 == pairs[n].0;
    }
  }

  /** A group has more than one element exactly when two pairs share their first component. */
  lemma GroupRepeatsIff(pairs: seq<(string, string)>)
    ensures SomeGroupRepeats(Group(pairs)) <==> HasSharedSource(pairs)
  {
    if HasSharedSource(pairs) {
      SharedSourceRepeats(pairs);
    }
    if SomeGroupRepeats(Group(pairs)) {
      RepeatsShareSource(pairs);
    }
  }

  /** `_detect_parallel_branches`. */
  method DetectParallelBranches(edges: seq<(string, string)>) returns (r: bool)
    ensures r <==> HasSharedSource(edges)
  {
    var outgoing: map<string, seq<string>> := map[];
    for i := 0 to |edges|
      invariant outgoing == Group(edges[..i])
    {
      assert edges[..i + 1][..i] == edges[..i];
      var (source, target) := edges[i];
      outgoing := outgoing[source := (if source in outgoing then outgoing[source] else []) + [target]];
    }
    assert edges[..|edges|] == edges;
    GroupRepeatsIff(edges);
    r := exists s :: s in outgoing && |outgoing[s]| > 1;
  }

  /** `_detect_fan_in`. */
  method DetectFanIn(edges: seq<(string, string)>) returns (r: bool)
    ensures r <==> HasSharedTarget(edges)
  {
    var incoming: map<string, seq<string>> := map[];
    var swapped := Swapped(edges);
    for i := 0 to |edges|
      invariant incoming == Group(swapped[..i])
    {
      assert swapped[..i + 1][..i] == swapped[..i];
      var (source, target) := edges[i];
      assert swapped[i] == (target, source);
      incoming := incoming[target := (if target in incoming then incoming[target] else []) + [source]];
    }
    assert swapped[..|edges|] == swapped;
    FanInByGroup(edges);
    r := exists s :: s in incoming && |incoming[s]| > 1;
  }

  lemma FanInByGroup(edges: seq<(string, string)>)
    ensures SomeGroupRepeats(Group(Swapped(edges))) <==> HasSharedTarget(edges)
  {
    GroupRepeatsIff(Swapped(edges));
    FanInIsSwappedFanOut(edges);
  }

  /** Fan-in is fan-out of the reversed edges; neither holds on an empty list. */
  lemma FanInIsSwappedFanOut(edges: seq<(string, string)>)
    ensures HasSharedTarget(edges) <==> HasSharedSource(Swapped(edges))
    ensures !HasSharedSource([]) && !HasSharedTarget([])
  {
    var sw := Swapped(edges);
    if HasSharedSource(sw) {
      var i, j :| 0 <= i < j < |sw| && sw[i].0 == sw[j].0;
      assert edges[i].1 == edges[j].1;
    }
  }

  // ---------------------------------------------------------------------
  // analyze_graph_structure
  // ---------------------------------------------------------------------

  /** A call whose short callee is `StateGraph`. */
  predicate IsStateGraphCall(n: AstNode) {
    n.Call? && GetName(n.func) == Some("StateGraph")
  }

  /** A method call `x.<method>(...)`. */
  predicate IsMethodCall(n: AstNode, method_: string) {
    n.Call? && n.func.Attribute? && n.func.attr == method_
  }

  /** The node registered by a node, when it is `x.add_node("name", ...)` with a non-empty name. */
  function AddedNode(n: AstNode): (r: Option<string>)
    ensures r.Some? <==> IsMethodCall(n, "add_node") && |n.args| >= 1 && IsNamedArg(n.args[0])
  {
    if IsMethodCall(n, "add_node") && |n.args| >= 1 && IsNamedArg(n.args[0])
    then ExtractStringArg(n.args[0]) else None
  }

  /** The edge registered by a node, when it is `x.add_edge("a", "b", ...)` with non-empty names. */
  function AddedEdge(n: AstNode): (r: Option<(string, string)>)
    ensures r.Some? <==> (IsMethodCall(n, "add_edge") && |n.args| >= 2
                          && IsNamedArg(n.args[0]) && IsNamedArg(n.args[1]))
  {
    if IsMethodCall(n, "add_edge") && |n.args| >= 2 && IsNamedArg(n.args[0]) && IsNamedArg(n.args[1])
    then Some((ExtractStringArg(n.args[0]).value, ExtractStringArg(n.args[1]).value)) else None
  }

  /** The registered node names, in walk order. */
  function NodeNames(walk: seq<AstNode>): seq<string> {
    if walk == [] then []
    else NodeNames(walk[..|walk| - 1]) + (match AddedNode(walk[|walk| - 1]) case Some(x) => [x] case None => [])
  }

  /** The registered edges, in walk order. */
  function EdgeNames(walk: seq<AstNode>): seq<(string, string)> {
    if walk == [] then []
    else EdgeNames(walk[..|walk| - 1]) + (match AddedEdge(walk[|walk| - 1]) case Some(e) => [e] case None => [])
  }

  /** A node name is recorded exactly when some `add_node` call with a non-empty string literal registers it. */
  lemma {:induction false} NodeNamesRecorded(walk: seq<AstNode>)
    ensures forall x :: x in NodeNames(walk) <==> exists k :: 0 <= k < |walk| && AddedNode(walk[k]) == Some(x)
  {
    if walk != [] {
      var init := walk[..|walk| - 1];
      NodeNamesRecorded(init);
      assert forall k :: 0 <= k < |init| ==> init[k] == walk[k];
    }
  }

  /** An edge is recorded exactly when some `add_edge` call with two non-empty string literals registers it. */
  lemma {:induction false} EdgeNamesRecorded(walk: seq<AstNode>)
    ensures forall e :: e in EdgeNames(walk) <==> exists k :: 0 <= k < |walk| && AddedEdge(walk[k]) == Some(e)
  {
    if walk != [] {
      var init := walk[..|walk| - 1];
      EdgeNamesRecorded(init);
      assert forall k :: 0 <= k < |init| ==> init[k] == walk[k];
    }
  }

  /** An edge from a name rather than a string literal, such as `START`, is not recorded. */
  lemma EdgeFromNameIgnored(builder: string, target: string, line: nat)
    ensures EdgeNames([Call(Attribute(Name(builder), "add_edge"), [Name("START"), Constant(StrValue(target))], line)]) == []
  {
    var walk := [Call(Attribute(Name(builder), "add_edge"), [Name("START"), Constant(StrValue(target))], line)];
    assert walk[..0] == [];
  }

  /** What opening and parsing `src/graph.py` gave. */
  datatype GraphFile = GraphMissing | GraphUnreadable(message: string) | GraphParsed(path: string, walk: seq<AstNode>)

  /** The result dict of `analyze_graph_structure`. */
  datatype GraphAnalysis = GraphAnalysis(
    hasStateGraph: bool,
    parallelBranches: bool,
    fanInNode: bool,
    nodes: seq<string>,
    edges: seq<(string, string)>,
    location: Option<string>,
    error: Option<string>)

  const NoGraph := GraphAnalysis(false, false, false, [], [], None, None)

  /** The loop of `analyze_graph_structure` over the walk of `src/graph.py`. */
  method WalkGraphFile(walk: seq<AstNode>) returns (hasStateGraph: bool, nodes: seq<string>, edges: seq<(string, string)>)
    ensures hasStateGraph <==> exists k :: 0 <= k < |walk| && IsStateGraphCall(walk[k])
    ensures nodes == NodeNames(walk)
    ensures edges == EdgeNames(walk)
  {
    hasStateGraph := false;
    nodes := [];
    edges := [];
    for i := 0 to |walk|
      invariant hasStateGraph <==> exists k :: 0 <= k < i && IsStateGraphCall(walk[k])
      invariant nodes == NodeNames(walk[..i])
      invariant edges == EdgeNames(walk[..i])
    {
      assert walk[..i + 1][..i] == walk[..i];
      var node := walk[i];
      if node.Call? && GetName(node.func) == Some("StateGraph") {
        hasStateGraph := true;
      }
      if node.Call? && node.func.Attribute? && node.func.attr == "add_node" && |node.args| > 0 {
        var nodeName := ExtractStringArg(node.args[0]);
        if nodeName.Some? && nodeName.value != "" {
          nodes := nodes + [nodeName.value];
        }
      }
      if node.Call? && node.func.Attribute? && node.func.attr == "add_edge" && |node.args| >= 2 {
        var fromNode := ExtractStringArg(node.args[0]);
        var toNode := ExtractStringArg(node.args[1]);
        if fromNode.Some? && fromNode.value != "" && toNode.Some? && toNode.value != "" {
          edges := edges + [(fromNode.value, toNode.value)];
        }
      }
    }
    assert walk[..|walk|] == walk;
  }

  /** `analyze_graph_structure`. */
  method AnalyzeGraphStructure(file: GraphFile) returns (r: GraphAnalysis)
    ensures file.GraphMissing? ==> r == NoGraph
    ensures file.GraphUnreadable? ==> r == NoGraph.(error := Some(file.message))
    ensures file.GraphParsed? ==>
      (r.location == Some(file.path) && r.error == None
       && (r.hasStateGraph <==> exists k :: 0 <= k < |file.walk| && IsStateGraphCall(file.walk[k]))
       && r.nodes == NodeNames(file.walk)
       && r.edges == EdgeNames(file.walk)
       && (r.parallelBranches <==> HasSharedSource(r.edges))
       && (r.fanInNode <==> HasSharedTarget(r.edges)))
  {
    match file
    case GraphMissing => return NoGraph;
    case GraphUnreadable(message) => return NoGraph.(error := Some(message));
    case GraphParsed(path, walk) =>
      var hasStateGraph, nodes, edges := WalkGraphFile(walk);
      var parallel := DetectParallelBranches(edges);
      var fanIn := DetectFanIn(edges);
      r := GraphAnalysis(hasStateGraph, parallel, fanIn, nodes, edges, Some(path), None);
  }

  // ---------------------------------------------------------------------
  // check_for_security_issues
  // ---------------------------------------------------------------------

  /** One reported issue: `{"type", "location", "severity"}`. */
  datatype SecurityIssue = SecurityIssue(kind: string, location: string, severity: string)

  /** A Python file found by the recursive glob: its base name and, unless reading or parsing raised, its walk. */
  datatype PyFile = PyFile(name: string, walk: Option<seq<AstNode>>)

  /** A call to `os.system` or `subprocess.call`, by full dotted name. */
  predicate IsUnsafeCall(n: AstNode) {
    n.Call? && GetFullName(n.func) in {Some("os.system"), Some("subprocess.call")}
  }

  function IssueAt(fileName: string, line: nat): SecurityIssue {
    SecurityIssue("Unsafe system call", fileName + ":line " + NatToString(line), "high")
  }

  /** The issues found in one walk, in walk order. */
  function FileIssues(fileName: string, walk: seq<AstNode>): (r: seq<SecurityIssue>)
    ensures forall x :: x in r <==> exists k :: 0 <= k < |walk| && IsUnsafeCall(walk[k]) && x == IssueAt(fileName, walk[k].line)
  {
    if walk == [] then []
    else
      var init := walk[..|walk| - 1];
      assert forall k :: 0 <= k < |init| ==> init[k] == walk[k];
      var last := walk[|walk| - 1];
      FileIssues(fileName, init) + (if IsUnsafeCall(last) then [IssueAt(fileName, last.line)] else [])
  }

  /** The issues of every file in glob order; a file that failed to parse contributes none. */
  function AllIssues(files: seq<PyFile>): (r: seq<SecurityIssue>)
    ensures forall x :: x in r ==> x.kind == "Unsafe system call" && x.severity == "high"
  {
    if files == [] then []
    else
      var init := AllIssues(files[..|files| - 1]);
      var f := files[|files| - 1];
      init + (if f.walk.Some? then FileIssues(f.name, f.walk.value) else [])
  }

  /** The issues of two runs of files are those of each run, in order. */
  lemma {:induction false} AllIssuesAppend(a: seq<PyFile>, b: seq<PyFile>)
    ensures AllIssues(a + b) == AllIssues(a) + AllIssues(b)
  {
    if b == [] {
      assert a + b == a;
    } else {
      var ab := a + b;
      assert ab[..|ab| - 1] == a + b[..|b| - 1];
      assert ab[|ab| - 1] == b[|b| - 1];
      AllIssuesAppend(a, b[..|b| - 1]);
    }
  }

  /** An issue is reported exactly when the walk of some file that parsed yields it. */
  lemma {:induction false} AllIssuesExact(files: seq<PyFile>)
    ensures forall x :: x in AllIssues(files) <==>
              exists i :: 0 <= i < |files| && files[i].walk.Some? && x in FileIssues(files[i].name, files[i].walk.value)
  {
    if files != [] {
      var init := files[..|files| - 1];
      assert forall i :: 0 <= i < |init| ==> init[i] == files[i];
      AllIssuesExact(init);
    }
  }

  /** `check_for_security_issues`. */
  method CheckForSecurityIssues(files: seq<PyFile>) returns (issues: seq<SecurityIssue>)
    ensures issues == AllIssues(files)
  {
    issues := [];
    for i := 0 to |files|
      invariant issues == AllIssues(files[..i])
    {
      assert files[..i + 1][..i] == files[..i];
      var f := files[i];
      if f.walk.Some? {
        var walk := f.walk.value;
        var found: seq<SecurityIssue> := [];
        for j := 0 to |walk|
          invariant found == FileIssues(f.name, walk[..j])
        {
          assert walk[..j + 1][..j] == walk[..j];
          var node := walk[j];
          if node.Call? {
            var funcName := GetFullName(node.func);
            if funcName == Some("os.system") || funcName == Some("subprocess.call") {
              found := found + [SecurityIssue("Unsafe system call", f.name + ":line " + NatToString(node.line), "high")];
            }
          }
        }
        assert walk[..|walk|] == walk;
        issues := issues + found;
      }
    }
    assert files[..|files|] == files;
  }

  /** `os.system(...)` is flagged; `system(...)` after `from os import system` is not. */
  lemma OnlyDottedCallsFlagged(line: nat)
    ensures IsUnsafeCall(Call(Dotted("os", ["system"]), [], line))
    ensures !IsUnsafeCall(Call(Name("system"), [], line))
  {
    FullNameOfDotted("os", ["system"]);
    assert Join(".", ["os", "system"]) == "os.system";
  }

  // ---------------------------------------------------------------------
  // find_state_definition
  // ---------------------------------------------------------------------

  const StateFiles: seq<string> := ["src/state.py", "src/graph.py", "src/nodes/state_models.py"]

  /** What opening and parsing one candidate file gave. */
  datatype StateFile = Absent | Unparsable | Parsed(walk: seq<AstNode>)

  /** A class deriving from `BaseModel` or `TypedDict` whose source segment is non-empty. */
  predicate IsStateClass(n: AstNode) {
    n.ClassDef?
    && (exists b :: 0 <= b < |n.bases| && GetName(n.bases[b]) in {Some("BaseModel"), Some("TypedDict")})
    && n.segment.Some? && n.segment.value != ""
  }

  /** The source of the first state class a walk visits. */
  function StateSnippet(walk: seq<AstNode>): (r: Option<string>)
    ensures r.None? <==> forall k :: 0 <= k < |walk| ==> !IsStateClass(walk[k])
    ensures r.Some? ==> exists k :: 0 <= k < |walk| && IsStateClass(walk[k]) && walk[k].segment == r
                                    && forall k' :: 0 <= k' < k ==> !IsStateClass(walk[k'])
  {
    if walk == [] then None
    else if IsStateClass(walk[0]) then walk[0].segment
    else
      var r := StateSnippet(walk[1..]);
      assert forall k :: 0 < k < |walk| ==> walk[k] == walk[1..][k - 1];
      r
  }

  /** A candidate file holds a state class. */
  predicate HoldsState(f: StateFile) {
    f.Parsed? && StateSnippet(f.walk).Some?
  }

  /** The `(found, file_path, code_snippet)` triple. */
  datatype StateDefinition = StateDefinition(found: bool, path: Option<string>, snippet: Option<string>)

  /**
   * `find_state_definition`, with the repository's files given as the
   * outcome of opening and parsing each relative path.
   */
  method FindStateDefinition(repoPath: string, fs: string -> StateFile) returns (r: StateDefinition)
    ensures r.found <==> exists k :: 0 <= k < |StateFiles| && HoldsState(fs(StateFiles[k]))
    ensures !r.found ==> r.path == None && r.snippet == None
    ensures r.found ==> exists k :: 0 <= k < |StateFiles| && HoldsState(fs(StateFiles[k]))
                                    && (forall k' :: 0 <= k' < k ==> !HoldsState(fs(StateFiles[k'])))
                                    && r.path == Some(repoPath + "/" + StateFiles[k])
                                    && r.snippet == Some(Prefix(StateSnippet(fs(StateFiles[k]).walk).value, 500))
  {
    for i := 0 to |StateFiles|
      invariant forall k :: 0 <= k < i ==> !HoldsState(fs(StateFiles[k]))
    {
      var file := fs(StateFiles[i]);
      if file.Parsed? {
        var snippet := StateSnippet(file.walk);
        if snippet.Some? {
          return StateDefinition(true, Some(repoPath + "/" + StateFiles[i]), Some(Prefix(snippet.value, 500)));
        }
      }
    }
    return StateDefinition(false, None, None);
  }
}
