/** The validation issues a schema reports and the way every validator turns
    them into the text of the error it throws: one `  - <path>: <message>`
    line per issue, the path's parts joined by '.'. Which issues a schema
    reports is stated per schema; the order of the list follows the schema's
    field order and the index order of arrays. */
module Issues {

  import opened Strings

  /** One step of an issue path: an object key or an array index. */
  datatype PathSegment = Key(name: string) | Index(position: nat)

  datatype Issue = Issue(path: seq<PathSegment>, message: string)

  function SegmentText(p: PathSegment): string {
    match p
    case Key(name) => name
    case Index(position) => NatToString(position)
  }

  /** `path.join('.')`. */
  function PathText(path: seq<PathSegment>): string {
    Join(seq(|path|, i requires 0 <= i < |path| => SegmentText(path[i])), ".")
  }

  function FormatIssue(issue: Issue): string {
    "  - " + PathText(issue.path) + ": " + issue.message
  }

  function IssueLines(issues: seq<Issue>): (lines: seq<string>)
    ensures |lines| == |issues|
    ensures forall i :: 0 <= i < |issues| ==> lines[i] == FormatIssue(issues[i])
  {
    seq(|issues|, i requires 0 <= i < |issues| => FormatIssue(issues[i]))
  }

  /** `issues.map(...).join('\n')`. */
  function FormatIssues(issues: seq<Issue>): string {
    Join(IssueLines(issues), "\n")
  }

  /** The error text of a failed schema parse: a heading line, then the
      issue lines. */
  function FailureMessage(heading: string, issues: seq<Issue>): (r: string)
    ensures StartsWith(r, heading + "\n")
  {
    heading + "\n" + FormatIssues(issues)
  }

  /** Moves issues found inside a value under the key or index that holds it. */
  function Under(segment: PathSegment, issues: seq<Issue>): (r: seq<Issue>)
    ensures |r| == |issues|
    ensures forall i :: 0 <= i < |issues| ==>
              r[i] == Issue([segment] + issues[i].path, issues[i].message)
  {
    seq(|issues|, i requires 0 <= i < |issues| => Issue([segment] + issues[i].path, issues[i].message))
  }

  predicate SingleLine(issue: Issue) {
    && '\n' !in issue.message
    && forall k :: 0 <= k < |issue.path| ==> '\n' !in SegmentText(issue.path[k])
  }

  lemma FormatIssueSingleLine(issue: Issue)
    requires SingleLine(issue)
    ensures '\n' !in FormatIssue(issue)
  {
    var path := issue.path;
    var texts := seq(|path|, i requires 0 <= i < |path| => SegmentText(path[i]));
    JoinExcludes(texts, ".", '\n');
  }

  /** Splitting the formatted issues at newlines gives back exactly one line
      per issue, in order, when no message or key holds a newline. */
  lemma IssueLinesRoundTrip(issues: seq<Issue>)
    requires |issues| >= 1
    requires forall i :: 0 <= i < |issues| ==> SingleLine(issues[i])
    ensures Split(FormatIssues(issues), '\n') == IssueLines(issues)
  {
    var lines := IssueLines(issues);
    forall i | 0 <= i < |lines| ensures '\n' !in lines[i] {
      FormatIssueSingleLine(issues[i]);
    }
    SplitJoin(lines, '\n');
  }

  /** The issue a single check reports when it fails. */
  function Check(ok: bool, path: seq<PathSegment>, message: string): (r: seq<Issue>)
    ensures r == [] <==> ok
    ensures !ok ==> r == [Issue(path, message)]
  {
    if ok then [] else [Issue(path, message)]
  }

  /** The issues of an array: those of each element, under the element's
      index, in index order. */
  function Indexed<T>(items: seq<T>, f: T -> seq<Issue>): (r: seq<Issue>)
  {
    if |items| == 0 then []
    else
      var n := |items| - 1;
      Indexed(items[..n], f) + Under(Index(n), f(items[n]))
  }

  /** An array reports no issue exactly when none of its elements does. */
  lemma {:induction false} IndexedEmpty<T>(items: seq<T>, f: T -> seq<Issue>)
    ensures Indexed(items, f) == [] <==> forall i :: 0 <= i < |items| ==> f(items[i]) == []
  {
    if |items| > 0 {
      var n := |items| - 1;
      IndexedEmpty(items[..n], f);
      assert forall i :: 0 <= i < n ==> items[..n][i] == items[i];
    }
  }
}
