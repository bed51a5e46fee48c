/**
 How the stages fit together through the registry. With the default issue types and a Jira that
 accepts every call and hands out a fresh, non-empty key per call, the map stages 2 and 3
 rebuild from what stage 1 recorded holds every parsed task once, in parse order, with its own
 subtasks under it (titles cleaned of their `Subtask n.m:` labels). With any other task type
 the rebuilt map is empty, and with any other subtask type every task comes back without
 subtasks, because the rebuilding loop only recognises the exact names `Task` and `Subtask`.
 */
module Pipeline {
  import opened Wrappers
  import opened Text
  import opened Parser
  import opened Registry
  import opened IssueTypes
  import opened Tickets
  import opened Hierarchy
  import opened Patterns

  /** A Jira that accepts every call; the `n`-th call creates the issue with key `keyOf(n)`. */
  function AlwaysCreates(keyOf: nat -> string): Oracle {
    (n: nat, f: Fields) => Some(keyOf(n))
  }

  /** Keys are never empty and never handed out twice. */
  ghost predicate FreshKeys(keyOf: nat -> string) {
    && (forall n: nat :: keyOf(n) != "")
    && (forall a: nat, b: nat :: a != b ==> keyOf(a) != keyOf(b))
  }

  const Defaults := Config(DefaultTaskType, DefaultSubtaskType)

  // ---------------------------------------------------------------------------
  // Stage 1 with every call succeeding

  /** The entries of subtasks created from call `calls` on. */
  function SubEntries(keyOf: nat -> string, cfg: Config, parent: string, subs: seq<Subtask>, calls: nat): (r: seq<Ticket>)
    ensures |r| == |subs|
  {
    seq(|subs|, i requires 0 <= i < |subs| => SubtaskEntry(cfg, keyOf(calls + i), parent, subs[i]))
  }

  lemma CreateSubtasksAllSucceed(keyOf: nat -> string, project: string, cfg: Config, parent: string,
                                 subs: seq<Subtask>, calls: nat)
    ensures CreateSubtasks(AlwaysCreates(keyOf), project, cfg, parent, subs, calls)
      == Outcome(SubEntries(keyOf, cfg, parent, subs, calls), calls + |subs|)
  {
    var create := AlwaysCreates(keyOf);
    var r := CreateSubtasks(create, project, cfg, parent, subs, calls);
    CreateSubtasksStop(create, project, cfg, parent, subs, calls);
    assert |r.entries| == |subs|;
    forall i | 0 <= i < |subs|
      ensures r.entries[i] == SubtaskEntry(cfg, keyOf(calls + i), parent, subs[i])
    {
      CreateSubtasksEntry(create, project, cfg, parent, subs, calls, i);
    }
  }

  /** The entries of one task whose calls all succeed: the task, then each of its subtasks. */
  function Group(keyOf: nat -> string, cfg: Config, clean: Cleaner, t: Task, calls: nat): (r: seq<Ticket>)
    ensures |r| == 1 + |t.subtasks|
  {
    [TaskEntry(cfg, keyOf(calls), t)] + SubEntries(keyOf, cfg, keyOf(calls), CleanedAll(clean, t.subtasks), calls + 1)
  }

  lemma CreateTaskAllSucceed(keyOf: nat -> string, clean: Cleaner, project: string, cfg: Config, t: Task, calls: nat)
    ensures CreateTask(AlwaysCreates(keyOf), clean, project, cfg, t, calls)
      == Outcome(Group(keyOf, cfg, clean, t, calls), calls + 1 + |t.subtasks|)
  {
    CreateSubtasksAllSucceed(keyOf, project, cfg, keyOf(calls), CleanedAll(clean, t.subtasks), calls + 1);
  }

  // ---------------------------------------------------------------------------
  // The map stage 2 rebuilds

  /** What stage 2 sees of a task: its subtask titles cleaned as stage 1 recorded them. */
  function AsFiled(clean: Cleaner, t: Task): Task {
    t.(subtasks := CleanedAll(clean, t.subtasks))
  }

  function SubInfos(keyOf: nat -> string, subs: seq<Subtask>, calls: nat): (r: seq<(string, SubtaskInfo)>)
    ensures |r| == |subs|
  {
    seq(|subs|, i requires 0 <= i < |subs| => (keyOf(calls + i), SubInfo(subs[i])))
  }

  /** The map entry expected for a task created at call `calls`. */
  function TreeEntry(keyOf: nat -> string, clean: Cleaner, t: Task, calls: nat): (string, TaskInfo) {
    (keyOf(calls), TaskInfo(t.title, t.description, t.criteria, SubInfos(keyOf, CleanedAll(clean, t.subtasks), calls + 1)))
  }

  /** The map expected from tasks created from call `calls` on. */
  function Tree(keyOf: nat -> string, clean: Cleaner, ts: seq<Task>, calls: nat): (r: seq<(string, TaskInfo)>)
    ensures |r| == |ts|
    decreases |ts|
  {
    if ts == [] then []
    else [TreeEntry(keyOf, clean, ts[0], calls)] + Tree(keyOf, clean, ts[1..], calls + 1 + |ts[0].subtasks|)
  }

  /** Forgetting the keys: each entry of the map read back as a task. */
  function Shape(m: seq<(string, TaskInfo)>): (r: seq<Task>)
    ensures |r| == |m|
  {
    seq(|m|, i requires 0 <= i < |m| => EntryShape(m[i].1))
  }

  function EntryShape(info: TaskInfo): Task {
    Task(info.summary, info.description, info.criteria,
         seq(|info.subtasks|, j requires 0 <= j < |info.subtasks| =>
           Subtask(info.subtasks[j].1.summary, info.subtasks[j].1.description, info.subtasks[j].1.criteria)))
  }

  /** The entry of a created task reads back as the task with its subtask titles cleaned. */
  lemma TreeEntryShape(keyOf: nat -> string, clean: Cleaner, t: Task, calls: nat)
    ensures EntryShape(TreeEntry(keyOf, clean, t, calls).1) == AsFiled(clean, t)
  {
    var subs := CleanedAll(clean, t.subtasks);
    assert EntryShape(TreeEntry(keyOf, clean, t, calls).1).subtasks == subs;
  }

  /** No key of `m` is one handed out from call `calls` on. */
  ghost predicate KeysBefore(m: seq<(string, TaskInfo)>, keyOf: nat -> string, calls: nat) {
    forall i, n: nat :: 0 <= i < |m| && n >= calls ==> m[i].0 != keyOf(n)
  }

  function SubInfo(s: Subtask): SubtaskInfo {
    SubtaskInfo(s.title, s.description, s.criteria)
  }

  /** The subtask entries of one task, as the loop reads them: complete subtask entries naming
      the task as parent, carrying the subtasks' keys and fields in order, with distinct keys. */
  lemma SubEntriesFiled(keyOf: nat -> string, k: string, subs: seq<Subtask>, calls: nat)
    requires FreshKeys(keyOf)
    ensures SubtasksUnder(k, SubEntries(keyOf, Defaults, k, subs, calls))
    ensures FiledSubtasks(SubEntries(keyOf, Defaults, k, subs, calls)) == SubInfos(keyOf, subs, calls)
    ensures DistinctKeys(SubInfos(keyOf, subs, calls))
  {
    var es := SubEntries(keyOf, Defaults, k, subs, calls);
    forall i | 0 <= i < |es|
      ensures HasRequired(es[i]) && es[i].issueType.value == SubtaskTypeName && es[i].parentKey == Some(k)
    {
      assert es[i] == SubtaskEntry(Defaults, keyOf(calls + i), k, subs[i]);
    }
    assert FiledSubtasks(es) == SubInfos(keyOf, subs, calls) by {
      forall i | 0 <= i < |es|
        ensures FiledSubtask(es[i]) == SubInfos(keyOf, subs, calls)[i]
      {
        assert es[i] == SubtaskEntry(Defaults, keyOf(calls + i), k, subs[i]);
      }
    }
  }

  /** A task entry and the entries of its (cleaned) subtasks `subs`, read after `m`. */
  lemma AddGroupEntries(keyOf: nat -> string, m: seq<(string, TaskInfo)>, t: Task, subs: seq<Subtask>, calls: nat)
    requires FreshKeys(keyOf) && KeysBefore(m, keyOf, calls)
    ensures var es := [TaskEntry(Defaults, keyOf(calls), t)] + SubEntries(keyOf, Defaults, keyOf(calls), subs, calls + 1);
      && AllComplete(es)
      && AddAll(m, es) == m + [(keyOf(calls), TaskInfo(t.title, t.description, t.criteria, SubInfos(keyOf, subs, calls + 1)))]
  {
    var k := keyOf(calls);
    var head := TaskEntry(Defaults, k, t);
    var rest := SubEntries(keyOf, Defaults, k, subs, calls + 1);
    var es := [head] + rest;
    var info := TaskInfo(t.title, t.description, t.criteria, []);
    SubEntriesFiled(keyOf, k, subs, calls + 1);
    AddTaskEntry(keyOf, m, t, calls);
    assert k !in Keys(m) by {
      assert forall j :: 0 <= j < |m| ==> m[j].0 != k;
    }
    assert info.subtasks + SubInfos(keyOf, subs, calls + 1) == SubInfos(keyOf, subs, calls + 1);
    FileAll(m, k, info, rest);
    assert es[0] == head && es[1..] == rest;
    assert AllComplete(es) by {
      assert forall j :: 1 <= j < |es| ==> es[j] == rest[j - 1];
    }
    assert AddAll(m, es) == AddAll(AddTicket(m, head), rest);
  }

  lemma AddTaskEntry(keyOf: nat -> string, m: seq<(string, TaskInfo)>, t: Task, calls: nat)
    requires KeysBefore(m, keyOf, calls)
    ensures AddTicket(m, TaskEntry(Defaults, keyOf(calls), t)) == m + [(keyOf(calls), TaskInfo(t.title, t.description, t.criteria, []))]
  {
    var k := keyOf(calls);
    assert k !in Keys(m) by {
      assert forall j :: 0 <= j < |m| ==> m[j].0 != k;
    }
    assert TaskEntry(Defaults, k, t).issueType.value == TaskTypeName;
  }

  /** The registry of a run where every call succeeds, from call `calls` on. */
  function Created(keyOf: nat -> string, cfg: Config, clean: Cleaner, ts: seq<Task>, calls: nat): seq<Ticket>
    decreases |ts|
  {
    if ts == [] then []
    else Group(keyOf, cfg, clean, ts[0], calls) + Created(keyOf, cfg, clean, ts[1..], calls + 1 + |ts[0].subtasks|)
  }

  /** With every call succeeding, stage 1 records exactly `Created`. */
  lemma {:induction false} CreateAllAllSucceed(keyOf: nat -> string, clean: Cleaner, project: string, cfg: Config,
                                               ts: seq<Task>, calls: nat)
    ensures CreateAll(AlwaysCreates(keyOf), clean, project, cfg, ts, calls).entries == Created(keyOf, cfg, clean, ts, calls)
    decreases |ts|
  {
    if ts != [] {
      var create := AlwaysCreates(keyOf);
      var next := calls + 1 + |ts[0].subtasks|;
      var first := CreateTask(create, clean, project, cfg, ts[0], calls);
      var group := Group(keyOf, cfg, clean, ts[0], calls);
      assert Created(keyOf, cfg, clean, ts, calls) == group + Created(keyOf, cfg, clean, ts[1..], next);
      assert first.entries == group && first.calls == next by {
        CreateTaskAllSucceed(keyOf, clean, project, cfg, ts[0], calls);
      }
      var rest := CreateAll(create, clean, project, cfg, ts[1..], next);
      CreateAllAllSucceed(keyOf, clean, project, cfg, ts[1..], next);
      assert CreateAll(create, clean, project, cfg, ts, calls).entries == group + rest.entries;
    }
  }

  /** The registry of a run where every call succeeds, read after a map `m` of earlier keys. */
  lemma {:induction false} AddAllCreated(keyOf: nat -> string, clean: Cleaner, m: seq<(string, TaskInfo)>,
                                         ts: seq<Task>, calls: nat)
    requires FreshKeys(keyOf) && KeysBefore(m, keyOf, calls)
    ensures AllComplete(Created(keyOf, Defaults, clean, ts, calls))
    ensures AddAll(m, Created(keyOf, Defaults, clean, ts, calls)) == m + Tree(keyOf, clean, ts, calls)
    decreases |ts|
  {
    if ts == [] {
      assert m + [] == m;
    } else {
      var next := calls + 1 + |ts[0].subtasks|;
      var group := Group(keyOf, Defaults, clean, ts[0], calls);
      var rest := Created(keyOf, Defaults, clean, ts[1..], next);
      var entry := TreeEntry(keyOf, clean, ts[0], calls);
      var m1 := m + [entry];
      var tree' := Tree(keyOf, clean, ts[1..], next);
      assert Created(keyOf, Defaults, clean, ts, calls) == group + rest;
      assert Tree(keyOf, clean, ts, calls) == [entry] + tree';
      GroupEntries(keyOf, clean, m, ts[0], calls);
      KeysBeforeExtend(keyOf, m, entry.1, calls, next);
      assert m + [(keyOf(calls), entry.1)] == m1;
      AddAllCreated(keyOf, clean, m1, ts[1..], next);
      AddAllAppend(m, group, rest);
      AppendOne(m, entry, tree');
    }
  }

  /** One task's group, read after `m`: one more entry at the end of the map. */
  lemma GroupEntries(keyOf: nat -> string, clean: Cleaner, m: seq<(string, TaskInfo)>, t: Task, calls: nat)
    requires FreshKeys(keyOf) && KeysBefore(m, keyOf, calls)
    ensures AllComplete(Group(keyOf, Defaults, clean, t, calls))
    ensures AddAll(m, Group(keyOf, Defaults, clean, t, calls)) == m + [TreeEntry(keyOf, clean, t, calls)]
  {
    AddGroupEntries(keyOf, m, t, CleanedAll(clean, t.subtasks), calls);
  }

  lemma AppendOne<T>(m: seq<T>, x: T, rest: seq<T>)
    ensures m + [x] + rest == m + ([x] + rest)
  {
  }

  lemma KeysBeforeExtend(keyOf: nat -> string, m: seq<(string, TaskInfo)>, info: TaskInfo, calls: nat, next: nat)
    requires FreshKeys(keyOf) && KeysBefore(m, keyOf, calls) && calls < next
    ensures KeysBefore(m + [(keyOf(calls), info)], keyOf, next)
  {
    var m1 := m + [(keyOf(calls), info)];
    forall i, n: nat | 0 <= i < |m1| && n >= next
      ensures m1[i].0 != keyOf(n)
    {
      if i < |m| {
        assert m1[i] == m[i];
      }
    }
  }

  lemma {:induction false} ShapeOfTree(keyOf: nat -> string, clean: Cleaner, ts: seq<Task>, calls: nat)
    ensures Shape(Tree(keyOf, clean, ts, calls)) == seq(|ts|, i requires 0 <= i < |ts| => AsFiled(clean, ts[i]))
    decreases |ts|
  {
    var expected := seq(|ts|, i requires 0 <= i < |ts| => AsFiled(clean, ts[i]));
    if ts != [] {
      var tree := Tree(keyOf, clean, ts, calls);
      var rest := Tree(keyOf, clean, ts[1..], calls + 1 + |ts[0].subtasks|);
      ShapeOfTree(keyOf, clean, ts[1..], calls + 1 + |ts[0].subtasks|);
      forall i | 0 <= i < |ts|
        ensures Shape(tree)[i] == expected[i]
      {
        if i == 0 {
          TreeEntryShape(keyOf, clean, ts[0], calls);
        } else {
          assert tree[i] == rest[i - 1];
          assert Shape(tree)[i] == Shape(rest)[i - 1];
        }
      }
    }
  }

  /** Stage 1 followed by stage 2's rebuilding, with the default issue types and every call
      succeeding: every parsed task comes back once, in order, with its own subtasks, their
      titles cleaned of the `Subtask n.m:` labels. */
  lemma RegistryRebuildsTasks(keyOf: nat -> string, project: string, ts: seq<Task>)
    requires FreshKeys(keyOf)
    ensures var registry := CreateAll(AlwaysCreates(keyOf), SubtaskSummary, project, Defaults, ts, 0).entries;
      && Validated(Some(registry)) == registry
      && Shape(Reconstruct(registry)) == seq(|ts|, i requires 0 <= i < |ts| => AsFiled(SubtaskSummary, ts[i]))
  {
    var registry := CreateAll(AlwaysCreates(keyOf), SubtaskSummary, project, Defaults, ts, 0).entries;
    CreateAllRegistry(AlwaysCreates(keyOf), SubtaskSummary, project, Defaults, ts, 0);
    CreateAllAllSucceed(keyOf, SubtaskSummary, project, Defaults, ts, 0);
    AddAllCreated(keyOf, SubtaskSummary, [], ts, 0);
    ReconstructIsLoop(registry);
    assert [] + Tree(keyOf, SubtaskSummary, ts, 0) == Tree(keyOf, SubtaskSummary, ts, 0);
    ShapeOfTree(keyOf, SubtaskSummary, ts, 0);
  }

  // ---------------------------------------------------------------------------
  // Issue type names across the stages

  /** With a task type other than `Task` (and a subtask type other than `Task`), stages 2 and 3
      rebuild nothing from what stage 1 recorded, whatever Jira answered. */
  lemma OtherTaskTypeRebuildsNothing(create: Oracle, clean: Cleaner, project: string, cfg: Config, ts: seq<Task>)
    requires cfg.taskType != TaskTypeName && cfg.subtaskType != TaskTypeName
    ensures var es := CreateAll(create, clean, project, cfg, ts, 0).entries;
      AllComplete(es) && Reconstruct(es) == []
  {
    var es := CreateAll(create, clean, project, cfg, ts, 0).entries;
    CreateAllRegistry(create, clean, project, cfg, ts, 0);
    NoTaskEntriesNoMap(es);
  }

  /** With a subtask type other than `Subtask`, every task comes back without subtasks. */
  lemma OtherSubtaskTypeDropsSubtasks(create: Oracle, clean: Cleaner, project: string, cfg: Config, ts: seq<Task>)
    requires cfg.subtaskType != SubtaskTypeName
    ensures var es := CreateAll(create, clean, project, cfg, ts, 0).entries;
      AllComplete(es) && NoSubtasks(Reconstruct(es))
  {
    var es := CreateAll(create, clean, project, cfg, ts, 0).entries;
    CreateAllRegistry(create, clean, project, cfg, ts, 0);
    NoSubtaskEntriesNoSubtasks(es);
  }

  /** A project offering `Story` and `Sub-task` but not `Task`: the connection check moves the
      default types there, and stages 2 and 3 then rebuild nothing at all. */
  lemma StoryProjectRebuildsNothing(create: Oracle, clean: Cleaner, project: string, ts: seq<Task>)
    ensures Resolve(Defaults, ["Story", "Sub-task", "Bug"]) == Some(Config("Story", "Sub-task"))
    ensures var es := CreateAll(create, clean, project, Config("Story", "Sub-task"), ts, 0).entries;
      AllComplete(es) && Reconstruct(es) == []
  {
    StoryProject();
    OtherTaskTypeRebuildsNothing(create, clean, project, Config("Story", "Sub-task"), ts);
  }

  /** A project offering `Task` and `Sub-task` (but not `Subtask`): the subtask type moves to
      `Sub-task`, and every task is then rebuilt without its subtasks. */
  lemma SubTaskProjectDropsSubtasks(create: Oracle, clean: Cleaner, project: string, ts: seq<Task>)
    ensures Resolve(Defaults, ["Task", "Sub-task"]) == Some(Config("Task", "Sub-task"))
    ensures var es := CreateAll(create, clean, project, Config("Task", "Sub-task"), ts, 0).entries;
      AllComplete(es) && NoSubtasks(Reconstruct(es))
  {
    var avail := ["Task", "Sub-task"];
    assert "Subtask" !in avail by { assert avail[0] != "Subtask" && avail[1] != "Subtask"; }
    assert "Task" == avail[0] && "Sub-task" == avail[1];
    OtherSubtaskTypeDropsSubtasks(create, clean, project, Config("Task", "Sub-task"), ts);
  }

  lemma {:induction false} ByKindAllAppend(a: seq<Ticket>, b: seq<Ticket>)
    ensures ByKindAll(a + b) == ByKindAll(a) + ByKindAll(b)
  {
    assert forall i :: |a| <= i < |a + b| ==> (a + b)[i] == b[i - |a|];
  }

  lemma SubEntriesByKind(keyOf: nat -> string, cfg: Config, parent: string, subs: seq<Subtask>, calls: nat)
    ensures ByKindAll(SubEntries(keyOf, cfg, parent, subs, calls)) == SubEntries(keyOf, Defaults, parent, subs, calls)
  {
  }

  /** Relabelled by kind, a group records the default type names whatever types it was created with. */
  lemma GroupByKind(keyOf: nat -> string, cfg: Config, clean: Cleaner, t: Task, calls: nat)
    ensures ByKindAll(Group(keyOf, cfg, clean, t, calls)) == Group(keyOf, Defaults, clean, t, calls)
  {
    var subs := CleanedAll(clean, t.subtasks);
    var head := [TaskEntry(cfg, keyOf(calls), t)];
    SubEntriesByKind(keyOf, cfg, keyOf(calls), subs, calls + 1);
    ByKindAllAppend(head, SubEntries(keyOf, cfg, keyOf(calls), subs, calls + 1));
    assert ByKindAll(head) == [TaskEntry(Defaults, keyOf(calls), t)];
  }

  lemma {:induction false} CreatedByKind(keyOf: nat -> string, cfg: Config, clean: Cleaner, ts: seq<Task>, calls: nat)
    ensures ByKindAll(Created(keyOf, cfg, clean, ts, calls)) == Created(keyOf, Defaults, clean, ts, calls)
    decreases |ts|
  {
    if ts != [] {
      var next := calls + 1 + |ts[0].subtasks|;
      GroupByKind(keyOf, cfg, clean, ts[0], calls);
      CreatedByKind(keyOf, cfg, clean, ts[1..], next);
      ByKindAllAppend(Group(keyOf, cfg, clean, ts[0], calls), Created(keyOf, cfg, clean, ts[1..], next));
    }
  }

  /** Stage 1 followed by the rebuilding classified by kind, with any issue types the connection
      check settled on and every call succeeding: every parsed task comes back once, in order,
      with its own subtasks. */
  lemma RegistryRebuildsTasksByKind(keyOf: nat -> string, project: string, cfg: Config, ts: seq<Task>)
    requires FreshKeys(keyOf)
    ensures var registry := CreateAll(AlwaysCreates(keyOf), SubtaskSummary, project, cfg, ts, 0).entries;
      && Validated(Some(registry)) == registry
      && Shape(ReconstructByKind(registry)) == seq(|ts|, i requires 0 <= i < |ts| => AsFiled(SubtaskSummary, ts[i]))
  {
    var registry := CreateAll(AlwaysCreates(keyOf), SubtaskSummary, project, cfg, ts, 0).entries;
    var relabelled := Created(keyOf, Defaults, SubtaskSummary, ts, 0);
    CreateAllRegistry(AlwaysCreates(keyOf), SubtaskSummary, project, cfg, ts, 0);
    CreateAllAllSucceed(keyOf, SubtaskSummary, project, cfg, ts, 0);
    CreatedByKind(keyOf, cfg, SubtaskSummary, ts, 0);
    assert ByKindAll(registry) == relabelled;
    AddAllCreated(keyOf, SubtaskSummary, [], ts, 0);
    ReconstructIsLoop(relabelled);
    assert [] + Tree(keyOf, SubtaskSummary, ts, 0) == Tree(keyOf, SubtaskSummary, ts, 0);
    ShapeOfTree(keyOf, SubtaskSummary, ts, 0);
  }
}
