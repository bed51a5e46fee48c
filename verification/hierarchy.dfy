/**
 The task/subtask map stages 2 and 3 rebuild from the registry (the same loop appears three
 times in the code). Python dictionaries keep insertion order and that order decides the order
 of READMEs, branches and test cases, so a map is an association list with distinct keys:
 assigning to a key already present replaces its value in place, a new key goes at the end.
 */
module Hierarchy {
  import opened Wrappers
  import opened Registry

  const TaskTypeName := "Task"
  const SubtaskTypeName := "Subtask"
  const NoDescription := "No description available."

  datatype SubtaskInfo = SubtaskInfo(summary: string, description: string, criteria: seq<string>)
  datatype TaskInfo = TaskInfo(summary: string, description: string, criteria: seq<string>,
                               subtasks: seq<(string, SubtaskInfo)>)

  // ---------------------------------------------------------------------------
  // Insertion-ordered maps

  function Keys<V>(m: seq<(string, V)>): (ks: seq<string>)
    ensures |ks| == |m|
    ensures forall i :: 0 <= i < |m| ==> ks[i] == m[i].0
  {
    seq(|m|, i requires 0 <= i < |m| => m[i].0)
  }

  predicate DistinctKeys<V>(m: seq<(string, V)>) {
    forall i, j :: 0 <= i < j < |m| ==> m[i].0 != m[j].0
  }

  /** Position of `k` in `m`, or `|m|` when it is absent. */
  function IndexOfKey<V>(m: seq<(string, V)>, k: string): (i: nat)
    ensures i <= |m|
    ensures i < |m| ==> m[i].0 == k
    ensures i == |m| <==> k !in Keys(m)
    ensures forall j :: 0 <= j < i ==> m[j].0 != k
    decreases |m|
  {
    if m == [] then 0
    else if m[0].0 == k then 0
    else
      var j := IndexOfKey(m[1..], k);
      assert Keys(m[1..]) == Keys(m)[1..];
      1 + j
  }

  /** `d.get(k)`. */
  function Lookup<V>(m: seq<(string, V)>, k: string): (r: Option<V>)
    ensures r.None? <==> k !in Keys(m)
    ensures r.Some? ==> (k, r.value) in m
  {
    var i := IndexOfKey(m, k);
    if i < |m| then Some(m[i].1) else None
  }

  /** `d[k] = v`. */
  function Put<V>(m: seq<(string, V)>, k: string, v: V): (r: seq<(string, V)>)
    ensures k in Keys(m) ==> Keys(r) == Keys(m)
    ensures k !in Keys(m) ==> Keys(r) == Keys(m) + [k]
    ensures DistinctKeys(m) ==> DistinctKeys(r)
    ensures DistinctKeys(m) ==> Lookup(r, k) == Some(v)
    ensures forall j :: 0 <= j < |m| && m[j].0 != k ==> r[j] == m[j]
  {
    var i := IndexOfKey(m, k);
    if i < |m| then m[i := (k, v)] else m + [(k, v)]
  }

  /** In a map with distinct keys, an entry found at any position is what `Lookup` returns. */
  lemma LookupAt<V>(m: seq<(string, V)>, j: nat)
    requires DistinctKeys(m) && j < |m|
    ensures Lookup(m, m[j].0) == Some(m[j].1)
  {
    var i := IndexOfKey(m, m[j].0);
    assert i <= j;
  }

  // ---------------------------------------------------------------------------
  // Reconstruction

  function DescriptionOf(t: Ticket): string {
    t.description.GetOr(NoDescription)
  }

  function CriteriaOf(t: Ticket): seq<string> {
    t.criteria.GetOr([])
  }

  /** `parent_key and parent_key in tasks`: present, non-empty and already a task. */
  predicate Attachable(tasks: seq<(string, TaskInfo)>, t: Ticket) {
    t.parentKey.Some? && t.parentKey.value != "" && t.parentKey.value in Keys(tasks)
  }

  /** Under each task, every subtask key appears once. */
  predicate SubtaskKeysDistinct(tasks: seq<(string, TaskInfo)>) {
    forall i :: 0 <= i < |tasks| ==> DistinctKeys(tasks[i].1.subtasks)
  }

  /** One iteration of the loop over the registry; the lemmas after it state what it does. */
  function AddTicket(tasks: seq<(string, TaskInfo)>, t: Ticket): seq<(string, TaskInfo)>
    requires HasRequired(t)
  {
    var key := t.key.value;
    if t.issueType.value == TaskTypeName then
      Put(tasks, key, TaskInfo(t.summary.value, DescriptionOf(t), CriteriaOf(t), []))
    else if t.issueType.value == SubtaskTypeName then
      if Attachable(tasks, t) then
        var p := t.parentKey.value;
        var i := IndexOfKey(tasks, p);
        var info := tasks[i].1;
        var sub := SubtaskInfo(t.summary.value, DescriptionOf(t), CriteriaOf(t));
        tasks[i := (p, info.(subtasks := Put(info.subtasks, key, sub)))]
      else tasks
    else tasks
  }

  /** A task entry inserts or replaces its key, with no subtasks; only a task entry can add a
      top-level key, and it adds its own. */
  lemma AddTicketTask(tasks: seq<(string, TaskInfo)>, t: Ticket)
    requires HasRequired(t) && t.issueType.value == TaskTypeName
    ensures DistinctKeys(tasks) ==>
      Lookup(AddTicket(tasks, t), t.key.value) == Some(TaskInfo(t.summary.value, DescriptionOf(t), CriteriaOf(t), []))
    ensures Keys(AddTicket(tasks, t)) == Keys(Put(tasks, t.key.value, TaskInfo("", "", [], [])))
  {
  }

  /** Subtask entries whose parent is missing, and entries of any other type, change nothing;
      no entry other than a task entry changes the top-level keys. */
  lemma AddTicketIgnored(tasks: seq<(string, TaskInfo)>, t: Ticket)
    requires HasRequired(t)
    ensures t.issueType.value == SubtaskTypeName && !Attachable(tasks, t) ==> AddTicket(tasks, t) == tasks
    ensures t.issueType.value != TaskTypeName && t.issueType.value != SubtaskTypeName ==> AddTicket(tasks, t) == tasks
    ensures t.issueType.value != TaskTypeName ==> Keys(AddTicket(tasks, t)) == Keys(tasks)
  {
  }

  /** A subtask entry whose parent is present is filed under that parent. */
  lemma AddTicketFiles(tasks: seq<(string, TaskInfo)>, t: Ticket)
    requires HasRequired(t) && t.issueType.value == SubtaskTypeName && Attachable(tasks, t) && DistinctKeys(tasks)
    ensures var parent := Lookup(tasks, t.parentKey.value).value;
      Lookup(AddTicket(tasks, t), t.parentKey.value) == Some(parent.(subtasks :=
        Put(parent.subtasks, t.key.value, SubtaskInfo(t.summary.value, DescriptionOf(t), CriteriaOf(t)))))
  {
    var p := t.parentKey.value;
    var i := IndexOfKey(tasks, p);
    LookupAt(tasks, i);
    var r := AddTicket(tasks, t);
    assert DistinctKeys(r) by {
      AddTicketDistinct(tasks, t);
    }
    LookupAt(r, i);
  }

  /** Entries for other keys are left as they were. */
  lemma AddTicketOthers(tasks: seq<(string, TaskInfo)>, t: Ticket)
    requires HasRequired(t)
    ensures forall j :: 0 <= j < |tasks| && tasks[j].0 != t.key.value && Some(tasks[j].0) != t.parentKey ==>
      AddTicket(tasks, t)[j] == tasks[j]
  {
  }

  /** The loop keeps the top-level keys distinct, and the subtask keys under each task. */
  lemma AddTicketDistinct(tasks: seq<(string, TaskInfo)>, t: Ticket)
    requires HasRequired(t)
    ensures DistinctKeys(tasks) ==> DistinctKeys(AddTicket(tasks, t))
    ensures SubtaskKeysDistinct(tasks) ==> SubtaskKeysDistinct(AddTicket(tasks, t))
  {
  }

  /** What the loop files under a task for a subtask entry: its key and its fields. */
  function FiledSubtask(t: Ticket): (string, SubtaskInfo)
    requires HasRequired(t)
  {
    (t.key.value, SubtaskInfo(t.summary.value, DescriptionOf(t), CriteriaOf(t)))
  }

  function FiledSubtasks(es: seq<Ticket>): (r: seq<(string, SubtaskInfo)>)
    requires AllComplete(es)
    ensures |r| == |es|
  {
    seq(|es|, i requires 0 <= i < |es| => FiledSubtask(es[i]))
  }

  /** Complete subtask entries that all name `k` as their parent. */
  predicate SubtasksUnder(k: string, es: seq<Ticket>) {
    && AllComplete(es)
    && forall i :: 0 <= i < |es| ==> es[i].issueType.value == SubtaskTypeName && es[i].parentKey == Some(k)
  }

  /** A subtask entry for the task added last, with a key new under it, is appended to that
      task's subtasks. */
  lemma FileOne(m: seq<(string, TaskInfo)>, k: string, info: TaskInfo, e: Ticket)
    requires k != "" && k !in Keys(m)
    requires HasRequired(e) && e.issueType.value == SubtaskTypeName && e.parentKey == Some(k)
    requires e.key.value !in Keys(info.subtasks)
    ensures AddTicket(m + [(k, info)], e) == m + [(k, info.(subtasks := info.subtasks + [FiledSubtask(e)]))]
  {
    var m1 := m + [(k, info)];
    assert m1[|m|].0 == k;
    assert IndexOfKey(m1, k) == |m| by {
      assert forall j :: 0 <= j < |m| ==> m1[j].0 == m[j].0 && m[j].0 != k;
    }
    assert Attachable(m1, e);
  }

  /** Subtask entries for the task added last, with keys new under it and distinct, are filed
      under it in order: the loop neither drops, reorders nor duplicates them. */
  lemma {:induction false} FileAll(m: seq<(string, TaskInfo)>, k: string, info: TaskInfo, es: seq<Ticket>)
    requires k != "" && k !in Keys(m) && SubtasksUnder(k, es)
    requires DistinctKeys(info.subtasks + FiledSubtasks(es))
    ensures AddAll(m + [(k, info)], es) == m + [(k, info.(subtasks := info.subtasks + FiledSubtasks(es)))]
    decreases |es|
  {
    if es == [] {
      assert info.subtasks + FiledSubtasks(es) == info.subtasks;
    } else {
      FileFirst(k, info, es);
      FileOne(m, k, info, es[0]);
      FileAll(m, k, info.(subtasks := info.subtasks + [FiledSubtask(es[0])]), es[1..]);
    }
  }

  /** The first entry's key is new under the task, and the rest meet `FileAll`'s demands once
      it is filed. */
  lemma FileFirst(k: string, info: TaskInfo, es: seq<Ticket>)
    requires SubtasksUnder(k, es) && es != []
    requires DistinctKeys(info.subtasks + FiledSubtasks(es))
    ensures es[0].key.value !in Keys(info.subtasks)
    ensures SubtasksUnder(k, es[1..])
    ensures info.subtasks + [FiledSubtask(es[0])] + FiledSubtasks(es[1..]) == info.subtasks + FiledSubtasks(es)
  {
    var all := info.subtasks + FiledSubtasks(es);
    assert all[|info.subtasks|].0 == es[0].key.value;
    assert forall j :: 0 <= j < |info.subtasks| ==> all[j].0 == info.subtasks[j].0;
    assert forall i :: 0 <= i < |es[1..]| ==> es[1..][i] == es[i + 1];
    assert FiledSubtasks(es) == [FiledSubtask(es[0])] + FiledSubtasks(es[1..]);
  }

  /** The whole loop, as a fold over the registry. */
  function Reconstruct(ts: seq<Ticket>): (r: seq<(string, TaskInfo)>)
    requires AllComplete(ts)
    ensures DistinctKeys(r) && SubtaskKeysDistinct(r)
    decreases |ts|
  {
    if ts == [] then []
    else
      var front := Reconstruct(ts[..|ts| - 1]);
      AddTicketDistinct(front, ts[|ts| - 1]);
      AddTicket(front, ts[|ts| - 1])
  }

  /** The same loop read front to back, continuing from a map already built. */
  function AddAll(m: seq<(string, TaskInfo)>, ts: seq<Ticket>): seq<(string, TaskInfo)>
    requires AllComplete(ts)
    decreases |ts|
  {
    if ts == [] then m else AddAll(AddTicket(m, ts[0]), ts[1..])
  }

  lemma {:induction false} AddAllSnoc(m: seq<(string, TaskInfo)>, ts: seq<Ticket>, t: Ticket)
    requires AllComplete(ts) && HasRequired(t)
    ensures AllComplete(ts + [t])
    ensures AddAll(m, ts + [t]) == AddTicket(AddAll(m, ts), t)
    decreases |ts|
  {
    assert forall i :: 0 <= i < |ts| ==> (ts + [t])[i] == ts[i];
    assert (ts + [t])[|ts|] == t;
    if ts == [] {
      assert [t][1..] == [];
    } else {
      assert (ts + [t])[1..] == ts[1..] + [t];
      AddAllSnoc(AddTicket(m, ts[0]), ts[1..], t);
    }
  }

  /** The fold `Reconstruct` is the loop as the code runs it, front to back from an empty map. */
  lemma {:induction false} ReconstructIsLoop(ts: seq<Ticket>)
    requires AllComplete(ts)
    ensures Reconstruct(ts) == AddAll([], ts)
    decreases |ts|
  {
    if ts != [] {
      var front := ts[..|ts| - 1];
      ReconstructIsLoop(front);
      AddAllSnoc([], front, ts[|ts| - 1]);
      assert front + [ts[|ts| - 1]] == ts;
    }
  }

  lemma {:induction false} AddAllAppend(m: seq<(string, TaskInfo)>, a: seq<Ticket>, b: seq<Ticket>)
    requires AllComplete(a) && AllComplete(b)
    ensures AllComplete(a + b)
    ensures AddAll(m, a + b) == AddAll(AddAll(m, a), b)
    decreases |a|
  {
    assert forall i :: 0 <= i < |a + b| ==> (a + b)[i] == if i < |a| then a[i] else b[i - |a|];
    if a == [] {
      assert a + b == b;
    } else {
      assert (a + b)[1..] == a[1..] + b;
      AddAllAppend(AddTicket(m, a[0]), a[1..], b);
    }
  }

  // ---------------------------------------------------------------------------
  // Reference definitions

  /** Keys of the task entries, in registry order, repeats included. */
  function TaskKeys(ts: seq<Ticket>): seq<string>
    requires AllComplete(ts)
    decreases |ts|
  {
    if ts == [] then []
    else
      var rest := TaskKeys(ts[..|ts| - 1]);
      var t := ts[|ts| - 1];
      if t.issueType.value == TaskTypeName then rest + [t.key.value] else rest
  }

  /** Each key once, where it first occurs. */
  function Dedup(ks: seq<string>): (r: seq<string>)
    ensures forall i, j :: 0 <= i < j < |r| ==> r[i] != r[j]
    ensures forall k :: k in r <==> k in ks
    decreases |ks|
  {
    if ks == [] then []
    else
      var d := Dedup(ks[..|ks| - 1]);
      var k := ks[|ks| - 1];
      assert ks == ks[..|ks| - 1] + [k];
      if k in d then d else d + [k]
  }

  lemma PutKeysNeutral(tasks: seq<(string, TaskInfo)>, k: string, v: TaskInfo, w: TaskInfo)
    ensures Keys(Put(tasks, k, v)) == Keys(Put(tasks, k, w))
  {
  }

  /** The top-level keys are the task entries' keys, each once, in order of first appearance:
      a repeated task key keeps its original place. */
  lemma {:induction false} ReconstructKeys(ts: seq<Ticket>)
    requires AllComplete(ts)
    ensures Keys(Reconstruct(ts)) == Dedup(TaskKeys(ts))
    decreases |ts|
  {
    if ts != [] {
      var front := ts[..|ts| - 1];
      var t := ts[|ts| - 1];
      ReconstructKeys(front);
      var m := Reconstruct(front);
      if t.issueType.value == TaskTypeName {
        var ks := TaskKeys(ts);
        assert ks == TaskKeys(front) + [t.key.value];
        assert ks[..|ks| - 1] == TaskKeys(front);
        PutKeysNeutral(m, t.key.value, TaskInfo("", "", [], []), TaskInfo(t.summary.value, DescriptionOf(t), CriteriaOf(t), []));
      }
    }
  }

  /** Some entry of the registry is a `Subtask` with key `sub` and parent `parent`. */
  predicate FiledAsSubtask(ts: seq<Ticket>, parent: string, sub: string) {
    exists e :: 0 <= e < |ts| && ts[e].key == Some(sub)
      && ts[e].issueType == Some(SubtaskTypeName) && ts[e].parentKey == Some(parent)
  }

  predicate SubtasksTraceable(ts: seq<Ticket>, tasks: seq<(string, TaskInfo)>) {
    forall i, j :: 0 <= i < |tasks| && 0 <= j < |tasks[i].1.subtasks| ==>
      FiledAsSubtask(ts, tasks[i].0, tasks[i].1.subtasks[j].0)
  }

  /** An entry of the registry stays one when one more entry is read after it. */
  lemma FiledAsSubtaskExtends(ts: seq<Ticket>, parent: string, sub: string)
    requires ts != [] && FiledAsSubtask(ts[..|ts| - 1], parent, sub)
    ensures FiledAsSubtask(ts, parent, sub)
  {
    var front := ts[..|ts| - 1];
    var e :| 0 <= e < |front| && front[e].key == Some(sub)
      && front[e].issueType == Some(SubtaskTypeName) && front[e].parentKey == Some(parent);
    assert ts[e] == front[e];
  }

  /** Where a subtask can come from: every subtask filed under a task was read from a `Subtask`
      entry naming that task as its parent. */
  lemma {:induction false} ReconstructTraceable(ts: seq<Ticket>)
    requires AllComplete(ts)
    ensures SubtasksTraceable(ts, Reconstruct(ts))
    decreases |ts|
  {
    if ts != [] {
      var front := ts[..|ts| - 1];
      var t := ts[|ts| - 1];
      ReconstructTraceable(front);
      LastTicketTraceable(ts);
    }
  }

  lemma LastTicketTraceable(ts: seq<Ticket>)
    requires ts != [] && AllComplete(ts)
    requires SubtasksTraceable(ts[..|ts| - 1], Reconstruct(ts[..|ts| - 1]))
    ensures SubtasksTraceable(ts, Reconstruct(ts))
  {
    var r := Reconstruct(ts);
    forall i, j | 0 <= i < |r| && 0 <= j < |r[i].1.subtasks|
      ensures FiledAsSubtask(ts, r[i].0, r[i].1.subtasks[j].0)
    {
      LastTicketTraceableAt(ts, i, j);
    }
  }

  lemma LastTicketTraceableAt(ts: seq<Ticket>, i: nat, j: nat)
    requires ts != [] && AllComplete(ts)
    requires SubtasksTraceable(ts[..|ts| - 1], Reconstruct(ts[..|ts| - 1]))
    requires i < |Reconstruct(ts)| && j < |Reconstruct(ts)[i].1.subtasks|
    ensures FiledAsSubtask(ts, Reconstruct(ts)[i].0, Reconstruct(ts)[i].1.subtasks[j].0)
  {
    var m := Reconstruct(ts[..|ts| - 1]);
    var t := ts[|ts| - 1];
    var r := Reconstruct(ts);
    assert r == AddTicket(m, t);
    var oj := SubtaskOrigin(m, t, i, j);
    if oj < 0 {
      assert ts[|ts| - 1] == t;
    } else {
      FiledAsSubtaskExtends(ts, m[i].0, m[i].1.subtasks[oj].0);
    }
  }

  /** Where a subtask of `AddTicket(m, t)` was before: at `oj` under the same task of `m`, or, when
      `oj` is negative, it is `t` itself, filed under its parent. */
  lemma SubtaskOrigin(m: seq<(string, TaskInfo)>, t: Ticket, i: nat, j: nat) returns (oj: int)
    requires HasRequired(t)
    requires i < |AddTicket(m, t)| && j < |AddTicket(m, t)[i].1.subtasks|
    ensures oj < 0 ==>
      && t.issueType == Some(SubtaskTypeName)
      && t.parentKey == Some(AddTicket(m, t)[i].0)
      && t.key == Some(AddTicket(m, t)[i].1.subtasks[j].0)
    ensures oj >= 0 ==>
      && i < |m| && oj < |m[i].1.subtasks|
      && m[i].0 == AddTicket(m, t)[i].0
      && m[i].1.subtasks[oj].0 == AddTicket(m, t)[i].1.subtasks[j].0
  {
    var r := AddTicket(m, t);
    var key := t.key.value;
    oj := j;
    if t.issueType.value == TaskTypeName {
      var k := IndexOfKey(m, key);
      if !(k < |m| && i == k) {
        assert i < |m| && r[i] == m[i];
      }
    } else if t.issueType.value == SubtaskTypeName && Attachable(m, t) {
      var k := IndexOfKey(m, t.parentKey.value);
      if i == k {
        var subs := Put(m[k].1.subtasks, key, SubtaskInfo(t.summary.value, DescriptionOf(t), CriteriaOf(t)));
        assert r[i].1.subtasks == subs && r[i].0 == t.parentKey.value;
        if subs[j].0 == key {
          oj := -1;
        } else {
          assert j < |m[k].1.subtasks| && subs[j] == m[k].1.subtasks[j];
        }
      } else {
        assert r[i] == m[i];
      }
    }
  }

  /** A subtask entry that comes before its parent task is lost, even though the parent is in
      the registry. */
  lemma ForwardReferenceDropped(sub: Ticket, task: Ticket)
    requires HasRequired(sub) && HasRequired(task)
    requires sub.issueType == Some(SubtaskTypeName) && task.issueType == Some(TaskTypeName)
    requires sub.parentKey == task.key
    ensures Reconstruct([sub, task]) == [(task.key.value, TaskInfo(task.summary.value, DescriptionOf(task), CriteriaOf(task), []))]
  {
    assert [sub, task][..1] == [sub];
    assert [sub][..0] == [];
    assert Reconstruct([sub]) == [];
  }

  /** A repeated task entry keeps the key's place but discards the subtasks collected so far. */
  lemma RepeatedTaskResets(tasks: seq<(string, TaskInfo)>, t: Ticket)
    requires DistinctKeys(tasks) && HasRequired(t)
    requires t.issueType == Some(TaskTypeName) && t.key.value in Keys(tasks)
    ensures Keys(AddTicket(tasks, t)) == Keys(tasks)
    ensures Lookup(AddTicket(tasks, t), t.key.value).value.subtasks == []
  {
  }

  // ---------------------------------------------------------------------------
  // Type names

  /** Without any `Task` entry nothing is rebuilt: no subtask finds a task to go under. */
  lemma {:induction false} NoTaskEntriesNoMap(ts: seq<Ticket>)
    requires AllComplete(ts)
    requires forall i :: 0 <= i < |ts| ==> ts[i].issueType != Some(TaskTypeName)
    ensures Reconstruct(ts) == []
    decreases |ts|
  {
    if ts != [] {
      var front := ts[..|ts| - 1];
      assert forall i :: 0 <= i < |front| ==> front[i] == ts[i];
      NoTaskEntriesNoMap(front);
      assert Keys<TaskInfo>([]) == [];
    }
  }

  predicate NoSubtasks(tasks: seq<(string, TaskInfo)>) {
    forall i :: 0 <= i < |tasks| ==> tasks[i].1.subtasks == []
  }

  /** When no `Subtask` entry names a parent, every task is rebuilt without subtasks. */
  lemma {:induction false} NoSubtaskEntriesNoSubtasks(ts: seq<Ticket>)
    requires AllComplete(ts)
    requires forall i :: 0 <= i < |ts| && ts[i].issueType == Some(SubtaskTypeName) ==> ts[i].parentKey.None?
    ensures NoSubtasks(Reconstruct(ts))
    decreases |ts|
  {
    if ts != [] {
      var front := ts[..|ts| - 1];
      assert forall i :: 0 <= i < |front| ==> front[i] == ts[i];
      NoSubtaskEntriesNoSubtasks(front);
      AddTicketNoSubtasks(Reconstruct(front), ts[|ts| - 1]);
    }
  }

  lemma AddTicketNoSubtasks(tasks: seq<(string, TaskInfo)>, t: Ticket)
    requires HasRequired(t) && NoSubtasks(tasks)
    requires t.issueType == Some(SubtaskTypeName) ==> t.parentKey.None?
    ensures NoSubtasks(AddTicket(tasks, t))
  {
    if t.issueType.value == TaskTypeName {
      var r := AddTicket(tasks, t);
      var k := IndexOfKey(tasks, t.key.value);
      forall i | 0 <= i < |r|
        ensures r[i].1.subtasks == []
      {
        if i < |tasks| && i != k {
          assert r[i] == tasks[i];
        }
      }
    }
  }

  /** An entry relabelled by its kind, which stage 1 records through `parent_key`: an entry
      without a parent is a task, one with a parent is a subtask. */
  function ByKind(t: Ticket): (r: Ticket)
    ensures HasRequired(t) ==> HasRequired(r)
    ensures r.key == t.key && r.parentKey == t.parentKey && r.summary == t.summary
    ensures r.issueType == Some(TaskTypeName) <==> t.parentKey.None?
  {
    t.(issueType := Some(if t.parentKey.None? then TaskTypeName else SubtaskTypeName))
  }

  function ByKindAll(ts: seq<Ticket>): (r: seq<Ticket>)
    ensures |r| == |ts|
    ensures AllComplete(ts) ==> AllComplete(r)
  {
    seq(|ts|, i requires 0 <= i < |ts| => ByKind(ts[i]))
  }

  /** The rebuilding loop classifying entries by kind instead of by the exact type names `Task`
      and `Subtask`, which are not the names stage 1 records when the project offers others. */
  function ReconstructByKind(ts: seq<Ticket>): (r: seq<(string, TaskInfo)>)
    requires AllComplete(ts)
    ensures DistinctKeys(r) && SubtaskKeysDistinct(r)
  {
    Reconstruct(ByKindAll(ts))
  }

  /** On a registry that already uses the names `Task` and `Subtask` for the two kinds, the
      classification by kind rebuilds exactly what the code rebuilds. */
  lemma ByKindAgrees(ts: seq<Ticket>)
    requires AllComplete(ts)
    requires forall i :: 0 <= i < |ts| ==>
      ts[i].issueType == Some(if ts[i].parentKey.None? then TaskTypeName else SubtaskTypeName)
    ensures ReconstructByKind(ts) == Reconstruct(ts)
  {
    assert ByKindAll(ts) == ts;
  }
}
