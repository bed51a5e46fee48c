/**
 The two README templates of stage 2, rendered from the rebuilt task map: the repository's main
 README, which lists every task with its subtasks, and the README committed to each task's
 feature branch. Both are written as a sequence of lines, each followed by a line break, which
 is what the code's run of `f"...\n"` appends produces.
 */
module Readme {
  import opened Text
  import opened Hierarchy

  /** What differs between the two templates in a subtask's section. */
  datatype Style = Style(subtaskHeading: string, sectionHeading: string, placeholder: string)

  const MainStyle := Style("#####", "######", "- None provided.")
  const BranchStyle := Style("###", "####", "- None")

  /** The criteria lines: one bullet per criterion, in order, or the placeholder alone. */
  function CriteriaLines(criteria: seq<string>, placeholder: string): (r: seq<string>)
    ensures r != []
  {
    if criteria == [] then [placeholder] else Bullets(criteria)
  }

  /** The criteria lines rendered are what the code writes: `"\n".join` of the bullets and a
      final line break, or the placeholder line. */
  lemma CriteriaBlockRendered(criteria: seq<string>, placeholder: string)
    ensures Unlines(CriteriaLines(criteria, placeholder))
      == if criteria != [] then Join(Bullets(criteria), "\n") + "\n" else placeholder + "\n"
  {
    if criteria != [] {
      JoinUnlines(Bullets(criteria));
    } else {
      assert Unlines([placeholder]) == placeholder + "\n" + Unlines([]);
    }
  }

  /** One subtask's section: heading, description, criteria, blank line. */
  function SubtaskLines(st: Style, key: string, s: SubtaskInfo): (r: seq<string>)
    ensures |r| == 6 + |CriteriaLines(s.criteria, st.placeholder)|
  {
    [st.subtaskHeading + " " + key + ": " + s.summary, st.sectionHeading + " Description", s.description, "",
     st.sectionHeading + " Acceptance Criteria"]
      + CriteriaLines(s.criteria, st.placeholder) + [""]
  }

  function SubtaskBlocks(st: Style, subs: seq<(string, SubtaskInfo)>): (r: seq<seq<string>>)
    ensures |r| == |subs|
  {
    seq(|subs|, j requires 0 <= j < |subs| => SubtaskLines(st, subs[j].0, subs[j].1))
  }

  // ---------------------------------------------------------------------------
  // The main README

  const MainHeaderLength := 6

  /** One task's section of the main README. */
  function MainTaskLines(key: string, t: TaskInfo): seq<string> {
    ["### " + key + ": " + t.summary, "#### Description", t.description, "", "#### Acceptance Criteria"]
      + CriteriaLines(t.criteria, MainStyle.placeholder)
      + (if t.subtasks == [] then [] else ["", "#### Subtasks"] + Flatten(SubtaskBlocks(MainStyle, t.subtasks)))
  }

  function MainTaskBlocks(tasks: seq<(string, TaskInfo)>): (r: seq<seq<string>>)
    ensures |r| == |tasks|
  {
    seq(|tasks|, i requires 0 <= i < |tasks| => MainTaskLines(tasks[i].0, tasks[i].1))
  }

  function MainReadmeLines(projectName: string, projectDescription: string, tasks: seq<(string, TaskInfo)>): seq<string> {
    ["# " + projectName, "", "## Overview", projectDescription, "", "## Tasks"] + Flatten(MainTaskBlocks(tasks))
  }

  /** `readme_content` of `initialize_repository`. */
  function MainReadme(projectName: string, projectDescription: string, tasks: seq<(string, TaskInfo)>): string {
    Unlines(MainReadmeLines(projectName, projectDescription, tasks))
  }

  /** The main README is its header followed by each task's section, in map order, as the
      code appends them. */
  lemma MainReadmeSections(projectName: string, projectDescription: string, tasks: seq<(string, TaskInfo)>)
    ensures MainReadme(projectName, projectDescription, tasks)
      == Unlines(["# " + projectName, "", "## Overview", projectDescription, "", "## Tasks"])
         + RenderBlocks(MainTaskBlocks(tasks))
  {
    UnlinesAppend(["# " + projectName, "", "## Overview", projectDescription, "", "## Tasks"], Flatten(MainTaskBlocks(tasks)));
    UnlinesFlatten(MainTaskBlocks(tasks));
  }

  /** A task's section in the main README: the `### key: summary` heading, the description two
      lines below it, the criteria after their heading, and a `#### Subtasks` part exactly when
      the task has subtasks, listing each subtask's `##### key: summary` heading in map order. */
  lemma MainTaskShape(key: string, t: TaskInfo)
    ensures var lines := MainTaskLines(key, t);
      var c := |CriteriaLines(t.criteria, MainStyle.placeholder)|;
      && |lines| >= 5 + c
      && lines[0] == "### " + key + ": " + t.summary
      && lines[2] == t.description
      && lines[5..5 + c] == CriteriaLines(t.criteria, MainStyle.placeholder)
      && (t.subtasks == [] <==> |lines| == 5 + c)
      && (t.subtasks != [] ==> |lines| > 6 + c && lines[5 + c] == "" && lines[6 + c] == "#### Subtasks")
  {
  }

  lemma MainSubtaskAt(key: string, t: TaskInfo, j: nat)
    requires j < |t.subtasks|
    ensures var lines := MainTaskLines(key, t);
      var at := 7 + |CriteriaLines(t.criteria, MainStyle.placeholder)| + Offset(SubtaskBlocks(MainStyle, t.subtasks), j);
      at < |lines| && lines[at] == "##### " + t.subtasks[j].0 + ": " + t.subtasks[j].1.summary
  {
    var blocks := SubtaskBlocks(MainStyle, t.subtasks);
    var c := |CriteriaLines(t.criteria, MainStyle.placeholder)|;
    var head := ["### " + key + ": " + t.summary, "#### Description", t.description, "", "#### Acceptance Criteria"]
      + CriteriaLines(t.criteria, MainStyle.placeholder);
    FlattenAt(blocks, j, 0);
    assert MainTaskLines(key, t) == head + ["", "#### Subtasks"] + Flatten(blocks);
  }

  /** The tasks appear in map order: task `i`'s section starts at its own line of the README,
      below the sections of all earlier tasks. */
  lemma MainReadmeTaskAt(projectName: string, projectDescription: string, tasks: seq<(string, TaskInfo)>, i: nat)
    requires i < |tasks|
    ensures var lines := MainReadmeLines(projectName, projectDescription, tasks);
      var at := MainHeaderLength + Offset(MainTaskBlocks(tasks), i);
      && at + 2 < |lines|
      && lines[at] == "### " + tasks[i].0 + ": " + tasks[i].1.summary
      && lines[at + 2] == tasks[i].1.description
    ensures i + 1 < |tasks| ==> Offset(MainTaskBlocks(tasks), i) < Offset(MainTaskBlocks(tasks), i + 1)
  {
    var blocks := MainTaskBlocks(tasks);
    MainTaskShape(tasks[i].0, tasks[i].1);
    FlattenAt(blocks, i, 0);
    FlattenAt(blocks, i, 2);
    OffsetNext(blocks, i);
  }

  // ---------------------------------------------------------------------------
  // The README of a task's branch

  function BranchReadmeLines(key: string, t: TaskInfo): seq<string> {
    ["# " + key + ": " + t.summary, "", "## Description", t.description, "", "## Acceptance Criteria"]
      + CriteriaLines(t.criteria, BranchStyle.placeholder) + [""]
      + (if t.subtasks == [] then [] else ["## Subtasks"] + Flatten(SubtaskBlocks(BranchStyle, t.subtasks)))
  }

  /** `readme_content` of `create_branches`. */
  function BranchReadme(key: string, t: TaskInfo): string {
    Unlines(BranchReadmeLines(key, t))
  }

  /** The branch README: the task's heading, description and criteria, then a `## Subtasks`
      part exactly when the task has subtasks, with each subtask's `### key: summary` heading in
      map order. */
  lemma BranchReadmeShape(key: string, t: TaskInfo)
    ensures var lines := BranchReadmeLines(key, t);
      var c := |CriteriaLines(t.criteria, BranchStyle.placeholder)|;
      && |lines| >= 7 + c
      && lines[0] == "# " + key + ": " + t.summary
      && lines[3] == t.description
      && lines[6..6 + c] == CriteriaLines(t.criteria, BranchStyle.placeholder)
      && (t.subtasks == [] <==> |lines| == 7 + c)
      && (t.subtasks != [] ==> |lines| > 7 + c && lines[7 + c] == "## Subtasks")
  {
  }

  lemma BranchSubtaskAt(key: string, t: TaskInfo, j: nat)
    requires j < |t.subtasks|
    ensures var lines := BranchReadmeLines(key, t);
      var at := 8 + |CriteriaLines(t.criteria, BranchStyle.placeholder)| + Offset(SubtaskBlocks(BranchStyle, t.subtasks), j);
      at < |lines| && lines[at] == "### " + t.subtasks[j].0 + ": " + t.subtasks[j].1.summary
  {
    var blocks := SubtaskBlocks(BranchStyle, t.subtasks);
    var head := ["# " + key + ": " + t.summary, "", "## Description", t.description, "", "## Acceptance Criteria"]
      + CriteriaLines(t.criteria, BranchStyle.placeholder) + [""];
    FlattenAt(blocks, j, 0);
    assert BranchReadmeLines(key, t) == head + ["## Subtasks"] + Flatten(blocks);
  }
}
