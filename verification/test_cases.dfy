/**
 Stage 3's test cases. For each task of the rebuilt map, in map order, the language model is
 asked for Markdown test cases; its reply (`None` when every attempt failed) is used when it is
 non-empty, with the task's title and description put in front when it does not already open
 with `# Test Cases for <key>`, and otherwise a fallback document is generated from the task's
 criteria. Each document is posted as a Jira comment unless it contains the phrase
 `Failed to generate test cases`, and committed as `test_cases_<key>.md` to the task's feature
 branch.
 */
module TestCases {
  import opened Wrappers
  import opened Text
  import opened Registry
  import opened Hierarchy
  import opened Branches

  const SkipPhrase := "Failed to generate test cases"
  const TaskPreconditions := "**Preconditions**: System is accessible, user is logged in (if applicable)."
  const SubtaskPreconditions := "**Preconditions**: Parent task functionality is available, user is logged in (if applicable)."
  const TaskGenericStep := "1. Verify the functionality as per the task description."
  const SubtaskGenericStep := "1. Verify the functionality as per the subtask description."

  /** The opening every test-case document is made to have. */
  function Title(key: string): string {
    "# Test Cases for " + key
  }

  /** The two opening paragraphs: the title with the summary, and the task description. */
  function HeaderLines(key: string, t: TaskInfo): seq<string> {
    [Title(key) + ": " + t.summary, "", "## Task Description", t.description, ""]
  }

  // ---------------------------------------------------------------------------
  // The fallback document

  function StepLine(n: nat, criterion: string): string {
    NatToString(n) + ". Ensure " + AsciiLower(criterion) + "."
  }

  /** The numbered steps: one per criterion, or the single generic step. */
  function Steps(criteria: seq<string>, generic: string): (r: seq<string>)
    ensures |r| == if criteria == [] then 1 else |criteria|
  {
    if criteria == [] then [generic]
    else seq(|criteria|, i requires 0 <= i < |criteria| => StepLine(i + 1, criteria[i]))
  }

  /** The expected results: one bullet per criterion, or the description as the only one. */
  function Expected(criteria: seq<string>, description: string): (r: seq<string>)
    ensures |r| == if criteria == [] then 1 else |criteria|
  {
    if criteria == [] then ["- " + description] else Bullets(criteria)
  }

  /** One test case, `TC_<key>_01`. */
  function CaseLines(key: string, summary: string, preconditions: string, generic: string,
                     criteria: seq<string>, description: string): (r: seq<string>)
    ensures |r| == 6 + |Steps(criteria, generic)| + |Expected(criteria, description)|
  {
    ["### Test Case TC_" + key + "_01", "**Objective**: Verify " + AsciiLower(summary) + " functionality.",
     preconditions, "**Test Steps**:"]
      + Steps(criteria, generic) + ["**Expected Result**:"] + Expected(criteria, description) + [""]
  }

  function TaskCase(key: string, t: TaskInfo): seq<string> {
    CaseLines(key, t.summary, TaskPreconditions, TaskGenericStep, t.criteria, t.description)
  }

  function SubtaskCases(subs: seq<(string, SubtaskInfo)>): (r: seq<seq<string>>)
    ensures |r| == |subs|
  {
    seq(|subs|, j requires 0 <= j < |subs| =>
      CaseLines(subs[j].0, subs[j].1.summary, SubtaskPreconditions, SubtaskGenericStep,
                subs[j].1.criteria, subs[j].1.description))
  }

  function FallbackLines(key: string, t: TaskInfo): seq<string> {
    HeaderLines(key, t) + TaskCase(key, t)
      + (if t.subtasks == [] then [] else ["## Subtask Test Cases"] + Flatten(SubtaskCases(t.subtasks)))
  }

  /** `generate_fallback_test_case`. */
  function Fallback(key: string, t: TaskInfo): string {
    Unlines(FallbackLines(key, t))
  }

  /** The fallback opens with the title, the task description and the task's own test case. */
  lemma FallbackOpening(key: string, t: TaskInfo)
    ensures StartsWith(Fallback(key, t),
      Unlines([Title(key) + ": " + t.summary, "", "## Task Description", t.description, "",
               "### Test Case TC_" + key + "_01"]))
  {
    var lines := FallbackLines(key, t);
    UnlinesPrefix(lines, 6);
    assert lines[..6] == [Title(key) + ": " + t.summary, "", "## Task Description", t.description, "",
                          "### Test Case TC_" + key + "_01"];
  }

  /** Step `i` carries the number `i + 1`: reading the digits at the start of the line back
      gives it, and `. Ensure ` follows them. */
  lemma StepNumbered(criteria: seq<string>, generic: string, i: nat)
    requires i < |criteria|
    ensures var line := Steps(criteria, generic)[i];
      var n := DigitRun(line);
      && DigitsValue(line[..n]) == i + 1
      && line[0] != '0'
      && StartsWith(line[n..], ". Ensure ")
  {
    assert Steps(criteria, generic)[i] == StepLine(i + 1, criteria[i]);
    StepLineNumber(i + 1, criteria[i]);
  }

  lemma StepLineNumber(n: nat, criterion: string)
    ensures var line := StepLine(n, criterion);
      var k := DigitRun(line);
      && DigitsValue(line[..k]) == n
      && k >= 1 && (line[0] == '0' ==> n == 0)
      && StartsWith(line[k..], ". Ensure ")
  {
    var digits := NatToString(n);
    var rest := ". Ensure " + AsciiLower(criterion) + ".";
    var line := StepLine(n, criterion);
    assert line == digits + rest;
    DigitRunOfDigits(digits, rest);
    assert line[..|digits|] == digits && line[|digits|..] == rest;
  }

  /** The steps and the expected results of a case sit between their headings. */
  lemma CaseShape(key: string, summary: string, preconditions: string, generic: string,
                  criteria: seq<string>, description: string)
    ensures var lines := CaseLines(key, summary, preconditions, generic, criteria, description);
      var s := |Steps(criteria, generic)|;
      && lines[0] == "### Test Case TC_" + key + "_01"
      && lines[3] == "**Test Steps**:"
      && lines[4..4 + s] == Steps(criteria, generic)
      && lines[4 + s] == "**Expected Result**:"
      && lines[5 + s..|lines| - 1] == Expected(criteria, description)
  {
    var steps, expected := Steps(criteria, generic), Expected(criteria, description);
    var head := ["### Test Case TC_" + key + "_01", "**Objective**: Verify " + AsciiLower(summary) + " functionality.",
                 preconditions, "**Test Steps**:"];
    Between(head, steps, "**Expected Result**:", expected, "");
  }

  /** Where the parts of `head + a + [mid] + b + [last]` sit. */
  lemma Between<T>(head: seq<T>, a: seq<T>, mid: T, b: seq<T>, last: T)
    ensures var all := head + a + [mid] + b + [last];
      && all[..|head|] == head
      && all[|head|..|head| + |a|] == a
      && all[|head| + |a|] == mid
      && all[|head| + |a| + 1..|all| - 1] == b
  {
    var all := head + a + [mid] + b + [last];
    assert all[..|head|] == head;
    assert all[|head|..|head| + |a|] == a;
    assert all[|head| + |a| + 1..|all| - 1] == b;
  }

  /** A `## Subtask Test Cases` section follows the task's case exactly when the task has
      subtasks, and it holds one `TC_<subkey>_01` case per subtask, in map order. */
  lemma FallbackSubtaskSection(key: string, t: TaskInfo)
    ensures var lines := FallbackLines(key, t);
      var c := 5 + |TaskCase(key, t)|;
      && |lines| >= c
      && (t.subtasks == [] <==> |lines| == c)
      && (t.subtasks != [] ==> lines[c] == "## Subtask Test Cases")
  {
  }

  lemma FallbackSubtaskAt(key: string, t: TaskInfo, j: nat)
    requires j < |t.subtasks|
    ensures var lines := FallbackLines(key, t);
      var at := 6 + |TaskCase(key, t)| + Offset(SubtaskCases(t.subtasks), j);
      at < |lines| && lines[at] == "### Test Case TC_" + t.subtasks[j].0 + "_01"
  {
    var pre := HeaderLines(key, t) + TaskCase(key, t);
    SectionAt(pre, "## Subtask Test Cases", SubtaskCases(t.subtasks), j, 0);
  }

  // ---------------------------------------------------------------------------
  // Choosing the document

  /** The header as one string: the title line, a blank line, the description heading, the
      description and a blank line. */
  lemma HeaderText(key: string, t: TaskInfo)
    ensures Unlines(HeaderLines(key, t))
         == Title(key) + ": " + t.summary + "\n\n## Task Description\n" + t.description + "\n\n"
  {
    var a := Title(key) + ": " + t.summary;
    var d := t.description;
    assert Unlines([""]) == "\n";
    assert Unlines([d, ""]) == d + "\n" + "\n";
    assert Unlines(["## Task Description", d, ""]) == "## Task Description" + "\n" + (d + "\n" + "\n");
    assert Unlines(["", "## Task Description", d, ""]) == "" + "\n" + ("## Task Description" + "\n" + (d + "\n" + "\n"));
    assert Unlines(HeaderLines(key, t)) == a + "\n" + ("" + "\n" + ("## Task Description" + "\n" + (d + "\n" + "\n")));
  }

  /** The document for one task, given the model's reply for it. */
  function TestCase(key: string, t: TaskInfo, reply: Option<string>): (r: string)
    // Every document opens with the title.
    ensures StartsWith(r, Title(key))
    // No usable reply: the fallback.
    ensures reply.None? || reply.value == [] ==> r == Fallback(key, t)
    // A usable reply is kept whole, at the end of the document.
    ensures reply.Some? && reply.value != [] ==> |reply.value| <= |r| && r[|r| - |reply.value|..] == reply.value
    // Only a reply lacking the title gets the header in front.
    ensures reply.Some? && StartsWith(reply.value, Title(key)) ==> r == reply.value
    // The header put in front: title with summary, then the task description.
    ensures reply.Some? && reply.value != [] && !StartsWith(reply.value, Title(key)) ==>
      r == Title(key) + ": " + t.summary + "\n\n## Task Description\n" + t.description + "\n\n" + reply.value
  {
    if reply.None? || reply.value == [] then
      FallbackOpening(key, t);
      var opening := Unlines([Title(key) + ": " + t.summary, "", "## Task Description", t.description, "",
                              "### Test Case TC_" + key + "_01"]);
      assert StartsWith(opening, Title(key)) by {
        assert opening[..|Title(key)|] == Title(key);
      }
      StartsWithTrans(Fallback(key, t), opening, Title(key));
      Fallback(key, t)
    else if StartsWith(reply.value, Title(key)) then
      reply.value
    else
      var head := Unlines(HeaderLines(key, t));
      HeaderText(key, t);
      var r := head + reply.value;
      assert r[..|Title(key)|] == Title(key) by {
        assert head[..|Title(key)|] == Title(key);
      }
      assert r[|r| - |reply.value|..] == reply.value;
      r
  }

  /** `generate_test_cases`: one document per task, keyed by the task's key, in map order; the
      model's reply for the `i`-th task is `replies(i)`. */
  function GenerateTestCases(tasks: seq<(string, TaskInfo)>, replies: nat -> Option<string>): (r: seq<(string, string)>)
    ensures |r| == |tasks|
  {
    seq(|tasks|, i requires 0 <= i < |tasks| => (tasks[i].0, TestCase(tasks[i].0, tasks[i].1, replies(i))))
  }

  /** The test cases have the tasks' keys, in the same order, and each document opens with its
      own task's title. */
  lemma GeneratedPerTask(tasks: seq<(string, TaskInfo)>, replies: nat -> Option<string>)
    ensures Keys(GenerateTestCases(tasks, replies)) == Keys(tasks)
    ensures forall i :: 0 <= i < |tasks| ==>
      StartsWith(GenerateTestCases(tasks, replies)[i].1, Title(tasks[i].0))
  {
    var r := GenerateTestCases(tasks, replies);
    forall i | 0 <= i < |tasks|
      ensures StartsWith(r[i].1, Title(tasks[i].0))
    {
      assert r[i].1 == TestCase(tasks[i].0, tasks[i].1, replies(i));
    }
  }

  /** `add_test_cases_to_jira` posts nothing for a document containing the phrase. */
  predicate SkipComment(content: string) {
    Contains(content, SkipPhrase)
  }

  /** The comment is skipped exactly when the phrase occurs somewhere in the document. */
  lemma SkipCommentIff(content: string)
    ensures SkipComment(content) <==> exists i: nat :: OccursAt(content, SkipPhrase, i)
  {
    ContainsAt(content, SkipPhrase);
  }

  function FileName(key: string): string {
    "test_cases_" + key + ".md"
  }

  /** The branch `commit_test_cases` writes a document to: computed again from the task found
      under the document's key. */
  function CommitBranch(tasks: seq<(string, TaskInfo)>, key: string): string
    requires key in Keys(tasks)
  {
    BranchName(key, Lookup(tasks, key).value.summary)
  }

  /** Stage 3 rebuilds the same map from the registry as stage 2, so the document of the `i`-th
      task is committed to exactly the branch stage 2 created for that task. */
  lemma CommitTargetsCreatedBranch(registry: seq<Ticket>, replies: nat -> Option<string>, i: nat)
    requires AllComplete(registry) && i < |Reconstruct(registry)|
    ensures var tasks := Reconstruct(registry);
      var key := GenerateTestCases(tasks, replies)[i].0;
      && key in Keys(tasks)
      && CommitBranch(tasks, key) == BranchNames(tasks)[i]
  {
    var tasks := Reconstruct(registry);
    LookupAt(tasks, i);
  }
}
