/**
 * The pure part of `GitTool`: parsing the lines `git log` prints and
 * classifying a commit history as atomic, mixed or monolithic. Running git
 * is outside the model: its output (or the exception) is an input.
 */
module GitTools {
  import opened Wrappers
  import opened Text
  import Seqs

  /** One parsed commit: `{"hash", "message", "timestamp", "author"}`. */
  datatype Commit = Commit(hash: string, message: string, timestamp: string, author: string)

  /**
   * What `extract_git_history` returns: `(True, commits)`, or
   * `(False, [{"error": str(e)}])` when running `git log` raised.
   */
  datatype History = History(commits: seq<Commit>) | HistoryFailed(error: string)

  /** One line of `git log --format=%H|%s|%ai|%an`. */
  function ParseLogLine(line: string): (r: Option<Commit>)
    ensures r.Some? <==> line != "" && |Split(line, '|')| == 4
  {
    if line == "" then None
    else
      var parts := Split(line, '|');
      if |parts| == 4 then Some(Commit(Prefix(parts[0], 8), parts[1], parts[2], parts[3]))
      else None
  }

  /** A line formatted from four `|`-free fields parses back to them, the hash cut to 8 characters. */
  lemma {:induction false} ParseLogLineRoundTrip(hash: string, message: string, timestamp: string, author: string)
    requires '|' !in hash && '|' !in message && '|' !in timestamp && '|' !in author
    ensures ParseLogLine(hash + "|" + message + "|" + timestamp + "|" + author)
            == Some(Commit(Prefix(hash, 8), message, timestamp, author))
  {
    var parts := [hash, message, timestamp, author];
    var line := hash + "|" + message + "|" + timestamp + "|" + author;
    assert parts[1..][1..][1..] == [author];
    assert Join(['|'], parts[1..][1..]) == timestamp + "|" + author;
    assert Join(['|'], parts[1..]) == message + "|" + (timestamp + "|" + author);
    assert Join(['|'], parts) == line;
    SplitJoin(parts, '|');
  }

  /** A commit whose subject contains `|` splits into more than four fields and is dropped. */
  lemma {:induction false} BarInMessageDropsCommit(hash: string, message: string, timestamp: string, author: string)
    requires '|' in message
    ensures ParseLogLine(hash + "|" + message + "|" + timestamp + "|" + author) == None
  {
    var line := hash + "|" + message + "|" + timestamp + "|" + author;
    assert line == hash + ("|" + (message + ("|" + (timestamp + ("|" + author)))));
    CountCharAppend(hash, "|" + (message + ("|" + (timestamp + ("|" + author)))), '|');
    CountCharAppend("|", message + ("|" + (timestamp + ("|" + author))), '|');
    CountCharAppend(message, "|" + (timestamp + ("|" + author)), '|');
    CountCharAppend("|", timestamp + ("|" + author), '|');
    CountCharAppend(timestamp, "|" + author, '|');
    CountCharAppend("|", author, '|');
    SplitCount(line, '|');
  }

  /** The commits parsed from a sequence of lines, in line order. */
  function ParseLog(lines: seq<string>): (r: seq<Commit>)
    ensures |r| <= |lines|
    ensures forall c :: c in r ==> exists k :: 0 <= k < |lines| && ParseLogLine(lines[k]) == Some(c)
  {
    if lines == [] then []
    else
      var init := ParseLog(lines[..|lines| - 1]);
      match ParseLogLine(lines[|lines| - 1])
      case Some(c) => init + [c]
      case None => init
  }

  /** Parsing two runs of lines one after the other parses each run in turn. */
  lemma {:induction false} ParseLogAppend(a: seq<string>, b: seq<string>)
    ensures ParseLog(a + b) == ParseLog(a) + ParseLog(b)
  {
    if b == [] {
      assert a + b == a;
    } else {
      var ab, init, last := a + b, b[..|b| - 1], b[|b| - 1];
      var tail := if ParseLogLine(last).Some? then [ParseLogLine(last).value] else [];
      calc {
        ParseLog(ab);
      == { assert ab[..|ab| - 1] == a + init; assert ab[|ab| - 1] == last; ParseLogLast(ab); }
        ParseLog(a + init) + tail;
      == { ParseLogAppend(a, init); }
        (ParseLog(a) + ParseLog(init)) + tail;
      ==
        ParseLog(a) + (ParseLog(init) + tail);
      == { ParseLogLast(b); }
        ParseLog(a) + ParseLog(b);
      }
    }
  }

  lemma ParseLogLast(lines: seq<string>)
    requires lines != []
    ensures var last := ParseLogLine(lines[|lines| - 1]);
            ParseLog(lines) == ParseLog(lines[..|lines| - 1]) + (if last.Some? then [last.value] else [])
  {
  }

  /** No line that parses is lost: its commit is in the history. */
  lemma ParseLogComplete(lines: seq<string>, k: nat)
    requires k < |lines| && ParseLogLine(lines[k]).Some?
    ensures ParseLogLine(lines[k]).value in ParseLog(lines)
  {
    var pre, mid, post := lines[..k], [lines[k]], lines[k + 1..];
    var c := ParseLogLine(lines[k]).value;
    Seqs.SplitAt(lines, k);
    ParseLogAppend(pre + mid, post);
    ParseLogAppend(pre, mid);
    assert ParseLog(mid) == [c] by { assert mid[..0] == []; }
    assert ParseLog(lines) == (ParseLog(pre) + [c]) + ParseLog(post);
    assert ParseLog(lines)[|ParseLog(pre)|] == c;
  }

  /** When every line parses, the k-th commit comes from the k-th line. */
  lemma {:induction false} ParseLogInOrder(lines: seq<string>)
    requires forall k :: 0 <= k < |lines| ==> ParseLogLine(lines[k]).Some?
    ensures |ParseLog(lines)| == |lines|
    ensures forall k :: 0 <= k < |lines| ==> ParseLog(lines)[k] == ParseLogLine(lines[k]).value
  {
    if lines != [] {
      var init := lines[..|lines| - 1];
      assert forall k :: 0 <= k < |init| ==> init[k] == lines[k];
      ParseLogInOrder(init);
      var c := ParseLogLine(lines[|lines| - 1]).value;
      var r := ParseLog(lines);
      assert r == ParseLog(init) + [c];
      forall k | 0 <= k < |lines| ensures r[k] == ParseLogLine(lines[k]).value {
        if k < |init| {
          assert r[k] == ParseLog(init)[k];
        }
      }
    }
  }

  /** `extract_git_history` on the outcome of running `git log`. */
  method ExtractGitHistory(gitLog: Outcome<string>) returns (h: History)
    ensures gitLog.Raised? ==> h == HistoryFailed(gitLog.error)
    ensures gitLog.Returned? ==> h == History(ParseLog(Split(Strip(gitLog.value), '\n')))
  {
    if gitLog.Raised? {
      return HistoryFailed(gitLog.error);
    }
    var lines := Split(Strip(gitLog.value), '\n');
    var commits: seq<Commit> := [];
    for i := 0 to |lines|
      invariant commits == ParseLog(lines[..i])
    {
      assert lines[..i + 1][..i] == lines[..i];
      var line := lines[i];
      if line != "" {
        var parts := Split(line, '|');
        if |parts| == 4 {
          commits := commits + [Commit(Prefix(parts[0], 8), parts[1], parts[2], parts[3])];
        }
      }
    }
    assert lines[..|lines|] == lines;
    h := History(commits);
  }

  const ProgressionKeywords: seq<string> :=
    ["setup", "init", "environment", "tool", "engineering",
     "detective", "judge", "orchestration", "graph", "test"]

  /** The lowercased message mentions a development stage. */
  predicate ShowsProgression(c: Commit) {
    ContainsAny(Lower(c.message), ProgressionKeywords)
  }

  /** How many commits mention a development stage. */
  function CountProgression(commits: seq<Commit>): (n: nat)
    ensures n <= |commits|
  {
    if commits == [] then 0
    else CountProgression(commits[..|commits| - 1]) + (if ShowsProgression(commits[|commits| - 1]) then 1 else 0)
  }

  /** The classification `classify_commit_pattern` makes, as a value. */
  function CommitPattern(commits: seq<Commit>): string {
    if |commits| <= 1 then "monolithic"
    else if 5 * CountProgression(commits) > 2 * |commits| then "atomic"
    else if |commits| > 5 then "mixed"
    else "monolithic"
  }

  /**
   * `classify_commit_pattern`. The test `matched / len > 0.4` is written
   * `5 * matched > 2 * len`, exact where the float division is.
   */
  method ClassifyCommitPattern(commits: seq<Commit>) returns (pattern: string)
    ensures pattern in {"atomic", "mixed", "monolithic"}
    ensures pattern == "atomic" <==> |commits| > 1 && 5 * CountProgression(commits) > 2 * |commits|
    ensures pattern == "mixed" <==> |commits| > 5 && 5 * CountProgression(commits) <= 2 * |commits|
    ensures pattern == CommitPattern(commits)
  {
    if |commits| <= 1 {
      return "monolithic";
    }
    var matched := 0;
    for i := 0 to |commits|
      invariant matched == CountProgression(commits[..i])
    {
      assert commits[..i + 1][..i] == commits[..i];
      if ContainsAny(Lower(commits[i].message), ProgressionKeywords) {
        matched := matched + 1;
      }
    }
    assert commits[..|commits|] == commits;
    if 5 * matched > 2 * |commits| {
      pattern := "atomic";
    } else if |commits| > 5 {
      pattern := "mixed";
    } else {
      pattern := "monolithic";
    }
  }
}
