/**
 Stage 1's ticket creation (`create_jira_tickets`): every parsed task becomes a Jira issue, then
 each of its subtasks becomes an issue under it, and every issue created is recorded in the
 registry. Jira is an oracle `create(n, fields)` that answers the `n`-th call of the run with
 the new issue's key, or `None` when the call raises. A failed call ends the work on the current
 task (the exception leaves its subtask loop) and the run goes on with the next task; whatever
 was recorded before the failure stays recorded.
 */
module Tickets {
  import opened Wrappers
  import opened Text
  import opened Parser
  import opened Patterns
  import opened Registry
  import opened IssueTypes

  const Label := "Admin-Portal-Enhancements"
  const SummaryLimit: nat := 255

  /** The `fields` dictionary passed to `create_issue`. */
  datatype Fields = Fields(project: string, summary: string, description: string, issueType: string,
                           parent: Option<string>, labels: seq<string>)

  /** Answer to the `n`-th `create_issue` call of the run: the new key, or `None` if it raised. */
  type Oracle = (nat, Fields) -> Option<string>

  /** What the run leaves behind: the registry entries and the number of calls made. */
  datatype Outcome = Outcome(entries: seq<Ticket>, calls: nat)

  // ---------------------------------------------------------------------------
  // Issue fields

  /** The issue body: the description, a blank line, and the criteria as bullets. */
  function IssueDescription(description: string, criteria: seq<string>): string {
    "Description: " + description + "\n\nAcceptance Criteria:\n" + Join(Bullets(criteria), "\n")
  }

  /** The lines of an issue body. */
  function IssueLines(description: string, criteria: seq<string>): seq<string> {
    ["Description: " + description, "", "Acceptance Criteria:"] + (if criteria == [] then [""] else Bullets(criteria))
  }

  /** Read line by line, the body gives back the description line and one bullet per criterion
      (a single empty line when there are none). */
  lemma IssueDescriptionLines(description: string, criteria: seq<string>)
    requires '\n' !in description
    requires forall i :: 0 <= i < |criteria| ==> '\n' !in criteria[i]
    ensures Split(IssueDescription(description, criteria), '\n') == IssueLines(description, criteria)
  {
    IssueDescriptionJoined(description, criteria);
    DescriptionLinesUnbroken(description, criteria);
    SplitJoin(IssueLines(description, criteria), '\n');
  }

  lemma IssueDescriptionJoined(description: string, criteria: seq<string>)
    ensures IssueDescription(description, criteria) == Join(IssueLines(description, criteria), "\n")
  {
    var head := ["Description: " + description, "", "Acceptance Criteria:"];
    var tail := if criteria == [] then [""] else Bullets(criteria);
    assert Join(tail, "\n") == Join(Bullets(criteria), "\n");
    JoinAppend(head, tail, "\n");
    DescriptionHead(description);
  }

  lemma DescriptionHead(description: string)
    ensures Join(["Description: " + description, "", "Acceptance Criteria:"], "\n")
      == "Description: " + description + "\n\nAcceptance Criteria:"
  {
    var head := ["Description: " + description, "", "Acceptance Criteria:"];
    assert head[1..] == ["", "Acceptance Criteria:"];
    assert head[1..][1..] == ["Acceptance Criteria:"];
    assert Join(head[1..], "\n") == "" + "\n" + "Acceptance Criteria:";
    BlankLineBetween("Description: " + description, "Acceptance Criteria:");
    assert "\n\n" + "Acceptance Criteria:" == "\n\nAcceptance Criteria:";
  }

  lemma DescriptionLinesUnbroken(description: string, criteria: seq<string>)
    requires '\n' !in description
    requires forall i :: 0 <= i < |criteria| ==> '\n' !in criteria[i]
    ensures forall i :: 0 <= i < |IssueLines(description, criteria)| ==> '\n' !in IssueLines(description, criteria)[i]
  {
    var lines := IssueLines(description, criteria);
    forall i | 0 <= i < |lines|
      ensures '\n' !in lines[i]
    {
      if i == 0 {
        assert lines[0] == "Description: " + description;
      } else if i >= 3 && criteria != [] {
        assert lines[i] == "- " + criteria[i - 3];
      }
    }
  }

  lemma BlankLineBetween(p: string, q: string)
    ensures p + "\n" + ("" + "\n" + q) == p + ("\n\n" + q)
  {
    assert "\n\n" == "\n" + "\n";
  }

  /** The fields of a task issue. */
  function TaskFields(project: string, cfg: Config, t: Task): Fields {
    Fields(project, Take(t.title, SummaryLimit), IssueDescription(t.description, t.criteria),
           cfg.taskType, None, [Label])
  }

  /** The title cleaning the subtask loop applies first thing in each iteration (`subtask_title`).
      The run uses `SubtaskSummary`; the creation loop is stated for any cleaning, since none of
      its properties depends on which one it is. */
  type Cleaner = string -> string

  /** A subtask as the subtask loop uses it. */
  function Cleaned(clean: Cleaner, s: Subtask): Subtask {
    s.(title := clean(s.title))
  }

  function CleanedAll(clean: Cleaner, subs: seq<Subtask>): (r: seq<Subtask>)
    ensures |r| == |subs|
  {
    seq(|subs|, i requires 0 <= i < |subs| => Cleaned(clean, subs[i]))
  }

  /** The fields of a subtask issue, for a cleaned subtask: the summary is the cleaned title cut
      to the limit. */
  function SubtaskFields(project: string, cfg: Config, parent: string, s: Subtask): Fields {
    Fields(project, Take(s.title, SummaryLimit), IssueDescription(s.description, s.criteria),
           cfg.subtaskType, Some(parent), [Label])
  }

  /** A task issue has the configured task type, no parent and the project label; its summary is
      the title, cut to the first 255 characters only when it is longer. */
  lemma TaskFieldsShape(project: string, cfg: Config, t: Task)
    ensures var f := TaskFields(project, cfg, t);
      && f.project == project && f.issueType == cfg.taskType && f.parent.None? && f.labels == [Label]
      && |f.summary| == (if |t.title| <= SummaryLimit then |t.title| else SummaryLimit)
      && StartsWith(t.title, f.summary)
      && (f.summary == t.title <==> |t.title| <= SummaryLimit)
  {
  }

  /** A subtask issue has the configured subtask type and its task as parent; its summary is the
      cleaned title, cut to the first 255 characters only when it is longer. */
  lemma SubtaskFieldsShape(project: string, cfg: Config, parent: string, s: Subtask)
    ensures var f := SubtaskFields(project, cfg, parent, Cleaned(SubtaskSummary, s));
      && f.project == project && f.issueType == cfg.subtaskType && f.parent == Some(parent) && f.labels == [Label]
      && |f.summary| == (if |SubtaskSummary(s.title)| <= SummaryLimit then |SubtaskSummary(s.title)| else SummaryLimit)
      && StartsWith(SubtaskSummary(s.title), f.summary)
      && (f.summary == SubtaskSummary(s.title) <==> |SubtaskSummary(s.title)| <= SummaryLimit)
  {
  }

  // ---------------------------------------------------------------------------
  // Registry entries

  /** The registry records the full title, not the cut summary. */
  function TaskEntry(cfg: Config, key: string, t: Task): (e: Ticket)
    ensures HasRequired(e) && e.parentKey.None? && e.issueType == Some(cfg.taskType)
    ensures e.key == Some(key) && e.summary == Some(t.title)
  {
    Ticket(Some(key), Some(t.title), Some(cfg.taskType), None, Some(t.description), Some(t.criteria))
  }

  /** The entry of a cleaned subtask: the registry records the cleaned title, not the cut summary. */
  function SubtaskEntry(cfg: Config, key: string, parent: string, s: Subtask): (e: Ticket)
    ensures HasRequired(e) && e.parentKey == Some(parent) && e.issueType == Some(cfg.subtaskType)
    ensures e.key == Some(key) && e.summary == Some(s.title)
  {
    Ticket(Some(key), Some(s.title), Some(cfg.subtaskType), Some(parent),
           Some(s.description), Some(s.criteria))
  }

  /** Key of the last entry without a parent, i.e. of the task whose group `es` ends in. */
  function OpenTaskKey(es: seq<Ticket>): Option<string>
    decreases |es|
  {
    if es == [] then None
    else if es[|es| - 1].parentKey.None? then es[|es| - 1].key
    else OpenTaskKey(es[..|es| - 1])
  }

  /** The registry layout: every subtask entry sits in the group of the task it belongs to. */
  predicate Grouped(es: seq<Ticket>) {
    forall i :: 0 <= i < |es| && es[i].parentKey.Some? ==> OpenTaskKey(es[..i]) == es[i].parentKey
  }

  /** Every entry carries the type configured for its kind. */
  predicate Typed(es: seq<Ticket>, cfg: Config) {
    forall i :: 0 <= i < |es| ==>
      es[i].issueType == Some(if es[i].parentKey.None? then cfg.taskType else cfg.subtaskType)
  }

  // ---------------------------------------------------------------------------
  // Creation

  /** The subtask loop of one task, over its cleaned subtasks: stops at the first failing call. */
  function CreateSubtasks(create: Oracle, project: string, cfg: Config, parent: string,
                          subs: seq<Subtask>, calls: nat): (r: Outcome)
    ensures |r.entries| <= |subs|
    ensures r.calls == calls + |r.entries| + (if |r.entries| < |subs| then 1 else 0)
    decreases |subs|
  {
    if subs == [] then Outcome([], calls)
    else
      match create(calls, SubtaskFields(project, cfg, parent, subs[0]))
      case None => Outcome([], calls + 1)
      case Some(key) =>
        var rest := CreateSubtasks(create, project, cfg, parent, subs[1..], calls + 1);
        Outcome([SubtaskEntry(cfg, key, parent, subs[0])] + rest.entries, rest.calls)
  }

  /** Entry `i` records subtask `i` under the key the call for it returned. */
  lemma {:induction false} CreateSubtasksEntry(create: Oracle, project: string, cfg: Config, parent: string,
                                               subs: seq<Subtask>, calls: nat, i: nat)
    requires i < |CreateSubtasks(create, project, cfg, parent, subs, calls).entries|
    ensures create(calls + i, SubtaskFields(project, cfg, parent, subs[i])).Some?
    ensures CreateSubtasks(create, project, cfg, parent, subs, calls).entries[i]
      == SubtaskEntry(cfg, create(calls + i, SubtaskFields(project, cfg, parent, subs[i])).value, parent, subs[i])
    decreases i
  {
    var f := create(calls, SubtaskFields(project, cfg, parent, subs[0]));
    var r := CreateSubtasks(create, project, cfg, parent, subs, calls);
    var rest := CreateSubtasks(create, project, cfg, parent, subs[1..], calls + 1);
    assert f.Some? && r.entries == [SubtaskEntry(cfg, f.value, parent, subs[0])] + rest.entries;
    if i > 0 {
      CreateSubtasksEntry(create, project, cfg, parent, subs[1..], calls + 1, i - 1);
      assert r.entries[i] == rest.entries[i - 1] && subs[i] == subs[1..][i - 1];
    }
  }

  /** The loop ends early only at a call that failed. */
  lemma {:induction false} CreateSubtasksStop(create: Oracle, project: string, cfg: Config, parent: string,
                                              subs: seq<Subtask>, calls: nat)
    ensures var n := |CreateSubtasks(create, project, cfg, parent, subs, calls).entries|;
      n < |subs| ==> create(calls + n, SubtaskFields(project, cfg, parent, subs[n])).None?
    decreases |subs|
  {
    if subs != [] && create(calls, SubtaskFields(project, cfg, parent, subs[0])).Some? {
      var rest := CreateSubtasks(create, project, cfg, parent, subs[1..], calls + 1);
      CreateSubtasksStop(create, project, cfg, parent, subs[1..], calls + 1);
      var n := |rest.entries|;
      assert |CreateSubtasks(create, project, cfg, parent, subs, calls).entries| == n + 1;
      if n < |subs[1..]| {
        assert subs[n + 1] == subs[1..][n];
      }
    }
  }

  /** Entries that are all complete, typed as subtasks and filed under `parent`. */
  predicate SubtasksOf(es: seq<Ticket>, cfg: Config, parent: string) {
    forall i :: 0 <= i < |es| ==>
      HasRequired(es[i]) && es[i].parentKey == Some(parent) && es[i].issueType == Some(cfg.subtaskType)
  }

  /** Every subtask entry is complete, typed as a subtask and filed under `parent`. */
  lemma {:induction false} SubtaskEntriesFiled(create: Oracle, project: string, cfg: Config, parent: string,
                                               subs: seq<Subtask>, calls: nat)
    ensures SubtasksOf(CreateSubtasks(create, project, cfg, parent, subs, calls).entries, cfg, parent)
    decreases |subs|
  {
    if subs != [] && create(calls, SubtaskFields(project, cfg, parent, subs[0])).Some? {
      var key := create(calls, SubtaskFields(project, cfg, parent, subs[0])).value;
      var rest := CreateSubtasks(create, project, cfg, parent, subs[1..], calls + 1);
      SubtaskEntriesFiled(create, project, cfg, parent, subs[1..], calls + 1);
      var es := [SubtaskEntry(cfg, key, parent, subs[0])] + rest.entries;
      assert CreateSubtasks(create, project, cfg, parent, subs, calls).entries == es;
      forall i | 0 <= i < |es|
        ensures HasRequired(es[i]) && es[i].parentKey == Some(parent) && es[i].issueType == Some(cfg.subtaskType)
      {
        if i > 0 {
          assert es[i] == rest.entries[i - 1];
        }
      }
    }
  }

  /** One iteration of the task loop. */
  function CreateTask(create: Oracle, clean: Cleaner, project: string, cfg: Config, t: Task, calls: nat): (r: Outcome)
    ensures r.calls > calls
    // A failed task call records nothing; the task's subtasks are not attempted.
    ensures create(calls, TaskFields(project, cfg, t)).None? <==> r.entries == []
    ensures create(calls, TaskFields(project, cfg, t)).None? ==> r.calls == calls + 1
    // Otherwise the task comes first, then the subtasks created under its key.
    ensures create(calls, TaskFields(project, cfg, t)).Some? ==>
      var key := create(calls, TaskFields(project, cfg, t)).value;
      && r.entries[0] == TaskEntry(cfg, key, t)
      && r.entries[1..] == CreateSubtasks(create, project, cfg, key, CleanedAll(clean, t.subtasks), calls + 1).entries
  {
    match create(calls, TaskFields(project, cfg, t))
    case None => Outcome([], calls + 1)
    case Some(key) =>
      var subs := CreateSubtasks(create, project, cfg, key, CleanedAll(clean, t.subtasks), calls + 1);
      var r := Outcome([TaskEntry(cfg, key, t)] + subs.entries, subs.calls);
      assert r.entries[1..] == subs.entries;
      r
  }

  /** The whole `create_jira_tickets` loop, run from call 0 with `clean := SubtaskSummary`;
      `entries` is what `ticket_keys.json` receives. */
  function CreateAll(create: Oracle, clean: Cleaner, project: string, cfg: Config, ts: seq<Task>, calls: nat): (r: Outcome)
    ensures r.calls >= calls + |ts|
    decreases |ts|
  {
    if ts == [] then Outcome([], calls)
    else
      var first := CreateTask(create, clean, project, cfg, ts[0], calls);
      var rest := CreateAll(create, clean, project, cfg, ts[1..], first.calls);
      Outcome(first.entries + rest.entries, rest.calls)
  }

  // ---------------------------------------------------------------------------
  // The registry stage 1 writes

  lemma {:induction false} OpenTaskKeyPastSubtasks(x: seq<Ticket>, s: seq<Ticket>)
    requires forall i :: 0 <= i < |s| ==> s[i].parentKey.Some?
    ensures OpenTaskKey(x + s) == OpenTaskKey(x)
    decreases |s|
  {
    if s != [] {
      var s' := s[..|s| - 1];
      assert s[|s| - 1].parentKey.Some?;
      assert (x + s)[|x + s| - 1] == s[|s| - 1];
      assert forall i :: 0 <= i < |s'| ==> s'[i] == s[i];
      assert (x + s)[..|x + s| - 1] == x + s';
      assert OpenTaskKey(x + s) == OpenTaskKey((x + s)[..|x + s| - 1]);
      OpenTaskKeyPastSubtasks(x, s');
    } else {
      assert x + s == x;
    }
  }

  /** Once a group has started, what came before it no longer matters. */
  lemma {:induction false} OpenTaskKeyWithinGroup(a: seq<Ticket>, g: seq<Ticket>, j: nat)
    requires 1 <= j <= |g| && g[0].parentKey.None?
    ensures OpenTaskKey(a + g[..j]) == OpenTaskKey(g[..j])
    decreases j
  {
    var last := g[j - 1];
    assert (a + g[..j])[|a + g[..j]| - 1] == last && g[..j][j - 1] == last;
    if last.parentKey.Some? {
      assert j > 1;
      assert (a + g[..j])[..|a + g[..j]| - 1] == a + g[..j - 1];
      assert g[..j][..j - 1] == g[..j - 1];
      OpenTaskKeyWithinGroup(a, g, j - 1);
    }
  }

  lemma GroupedAppend(a: seq<Ticket>, g: seq<Ticket>)
    requires Grouped(a) && Grouped(g)
    requires g != [] ==> g[0].parentKey.None?
    ensures Grouped(a + g)
  {
    var es := a + g;
    forall i | 0 <= i < |es| && es[i].parentKey.Some?
      ensures OpenTaskKey(es[..i]) == es[i].parentKey
    {
      if i < |a| {
        assert es[..i] == a[..i] && es[i] == a[i];
      } else {
        var j := i - |a|;
        assert es[i] == g[j] && j >= 1;
        assert es[..i] == a + g[..j];
        OpenTaskKeyWithinGroup(a, g, j);
      }
    }
  }

  /** A task entry followed by subtask entries filed under its key forms one group. */
  lemma GroupOfTask(head: Ticket, subs: seq<Ticket>)
    requires head.parentKey.None? && head.key.Some?
    requires forall i :: 0 <= i < |subs| ==> subs[i].parentKey == head.key
    ensures Grouped([head] + subs)
  {
    var es := [head] + subs;
    forall i | 0 <= i < |es| && es[i].parentKey.Some?
      ensures OpenTaskKey(es[..i]) == es[i].parentKey
    {
      assert i >= 1 && es[i] == subs[i - 1];
      assert es[..i] == [head] + subs[..i - 1];
      OpenTaskKeyPastSubtasks([head], subs[..i - 1]);
      assert [head][..0] == [];
    }
  }

  /** Every entry stage 1 records is complete, carries the type configured for its kind, and
      sits right after its parent task or that task's earlier subtasks. */
  lemma {:induction false} CreateAllRegistry(create: Oracle, clean: Cleaner, project: string, cfg: Config, ts: seq<Task>, calls: nat)
    ensures var es := CreateAll(create, clean, project, cfg, ts, calls).entries;
      AllComplete(es) && Typed(es, cfg) && Grouped(es)
    ensures Validated(Some(CreateAll(create, clean, project, cfg, ts, calls).entries))
      == CreateAll(create, clean, project, cfg, ts, calls).entries
    decreases |ts|
  {
    if ts != [] {
      var first := CreateTask(create, clean, project, cfg, ts[0], calls);
      var rest := CreateAll(create, clean, project, cfg, ts[1..], first.calls);
      CreateAllRegistry(create, clean, project, cfg, ts[1..], first.calls);
      CreateTaskRegistry(create, clean, project, cfg, ts[0], calls);
      GroupedAppend(first.entries, rest.entries);
      CompleteTypedAppend(first.entries, rest.entries, cfg);
    }
  }

  lemma CompleteTypedAppend(a: seq<Ticket>, b: seq<Ticket>, cfg: Config)
    requires AllComplete(a) && Typed(a, cfg) && AllComplete(b) && Typed(b, cfg)
    ensures AllComplete(a + b) && Typed(a + b, cfg)
  {
    forall i | |a| <= i < |a + b|
      ensures (a + b)[i] == b[i - |a|]
    {
    }
  }

  lemma CreateTaskRegistry(create: Oracle, clean: Cleaner, project: string, cfg: Config, t: Task, calls: nat)
    ensures var es := CreateTask(create, clean, project, cfg, t, calls).entries;
      AllComplete(es) && Typed(es, cfg) && Grouped(es)
    ensures var es := CreateTask(create, clean, project, cfg, t, calls).entries;
      es != [] ==> es[0].parentKey.None?
  {
    var r := CreateTask(create, clean, project, cfg, t, calls);
    var f := create(calls, TaskFields(project, cfg, t));
    if f.Some? {
      var subs := CreateSubtasks(create, project, cfg, f.value, CleanedAll(clean, t.subtasks), calls + 1).entries;
      SubtaskEntriesFiled(create, project, cfg, f.value, CleanedAll(clean, t.subtasks), calls + 1);
      assert r.entries == [r.entries[0]] + subs;
      assert r.entries[0] == TaskEntry(cfg, f.value, t);
      CompleteTypedAppend([r.entries[0]], subs, cfg);
      GroupOfTask(r.entries[0], subs);
    }
  }
}
