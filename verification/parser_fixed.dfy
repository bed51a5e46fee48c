/**
 The stage-1 parser with the stale subtask closed: a task header first files the open subtask
 under the open task, exactly as the final flush does, and opens the new task with no subtask.
 Every other line is handled as before. With that one change the rendering of ANY list of
 renderable tasks parses back to the same list, not only lists where the last task alone has
 subtasks.
 */
module ParserFixed {
  import opened Wrappers
  import opened Text
  import opened Parser
  import opened ParserLaws

  /** One iteration of the corrected loop body. */
  function StepKindFixed(s: State, k: LineKind): (r: State)
    ensures Valid(r) || (!k.TaskLine? && !Valid(s))
    // A task header closes everything that is open, subtask included.
    ensures k.TaskLine? ==>
      && r.done == Finish(s)
      && r.task == Some(Task(k.task.title, "", [], []))
      && r.subtask.None?
    // Other lines are read as the original parser reads them.
    ensures !k.TaskLine? ==> r == StepKind(s, k)
  {
    match k
    case TaskLine(h) => State(Finish(s), Some(Task(h.title, "", [], [])), None, h.number)
    case _ => StepKind(s, k)
  }

  function RunFixed(s: State, ks: seq<LineKind>): State
    decreases |ks|
  {
    if ks == [] then s else RunFixed(StepKindFixed(s, ks[0]), ks[1..])
  }

  /** The corrected `parse_tasks_from_file`. */
  function ParseTasksFixed(text: string): seq<Task> {
    Finish(RunFixed(Start, Kinds(Split(text, '\n'))))
  }

  predicate NoTaskLines(ks: seq<LineKind>) {
    forall i :: 0 <= i < |ks| ==> !ks[i].TaskLine?
  }

  lemma {:induction false} RunFixedAppend(s: State, a: seq<LineKind>, b: seq<LineKind>)
    ensures RunFixed(s, a + b) == RunFixed(RunFixed(s, a), b)
    decreases |a|
  {
    if a == [] {
      assert a + b == b;
    } else {
      assert (a + b)[1..] == a[1..] + b;
      RunFixedAppend(StepKindFixed(s, a[0]), a[1..], b);
    }
  }

  /** Between two task headers the corrected parser and the original one agree. */
  lemma {:induction false} RunFixedAgrees(s: State, ks: seq<LineKind>)
    requires NoTaskLines(ks)
    ensures RunFixed(s, ks) == Run(s, ks)
    decreases |ks|
  {
    if ks != [] {
      assert !ks[0].TaskLine?;
      RunFixedAgrees(StepKind(s, ks[0]), ks[1..]);
    }
  }

  lemma BodyHasNoTaskLines(d: string, cs: seq<string>)
    ensures NoTaskLines(BodyKinds(d, cs))
  {
    var b := BodyKinds(d, cs);
    var k := if d == [] then 0 else 1;
    forall i | 0 <= i < |b|
      ensures !b[i].TaskLine?
    {
      if k + 1 <= i < k + 1 + |cs| {
        assert b[i] == ItemKinds(cs)[i - k - 1];
      }
    }
  }

  lemma {:induction false} SubtaskBlocksHaveNoTaskLines(n: nat, subs: seq<Subtask>, m: nat)
    ensures NoTaskLines(SubtaskBlockKinds(n, subs, m))
    decreases |subs|
  {
    if subs != [] {
      var head := [SubtaskLine(SubtaskHeader(NatToString(n), NatToString(m), subs[0].title))];
      var body := BodyKinds(subs[0].description, subs[0].criteria);
      var rest := SubtaskBlockKinds(n, subs[1..], m + 1);
      BodyHasNoTaskLines(subs[0].description, subs[0].criteria);
      SubtaskBlocksHaveNoTaskLines(n, subs[1..], m + 1);
      NoTaskLinesJoin(head, body);
      NoTaskLinesJoin(head + body, rest);
    }
  }

  lemma NoTaskLinesJoin(a: seq<LineKind>, b: seq<LineKind>)
    requires NoTaskLines(a) && NoTaskLines(b)
    ensures NoTaskLines(a + b)
  {
    forall i | 0 <= i < |a + b|
      ensures !(a + b)[i].TaskLine?
    {
      if i >= |a| {
        assert (a + b)[i] == b[i - |a|];
      }
    }
  }

  /** One rendered task read by the corrected parser: whatever was open is closed, and after
      the final flush the task comes back whole. */
  lemma RunTaskBlockFixed(s: State, n: nat, t: Task)
    ensures Finish(RunFixed(s, TaskBlockKinds(n, t))) == Finish(s) + [t]
  {
    var head := TaskLine(TaskHeader(n, t.title));
    var rest := BodyKinds(t.description, t.criteria) + SubtaskBlockKinds(n, t.subtasks, 1);
    assert TaskBlockKinds(n, t) == [head] + rest;
    BodyHasNoTaskLines(t.description, t.criteria);
    SubtaskBlocksHaveNoTaskLines(n, t.subtasks, 1);
    NoTaskLinesJoin(BodyKinds(t.description, t.criteria), SubtaskBlockKinds(n, t.subtasks, 1));
    var s1 := StepKindFixed(s, head);
    assert RunFixed(s, [head] + rest) == RunFixed(s1, rest) by {
      assert ([head] + rest)[0] == head && ([head] + rest)[1..] == rest;
    }
    RunFixedAgrees(s1, rest);
    // The original parser reaches the same state from one where everything is closed.
    var closed := State(Finish(s), None, None, s.counter);
    assert StepKind(closed, head) == s1;
    assert Run(closed, [head] + rest) == Run(s1, rest) by {
      assert ([head] + rest)[0] == head && ([head] + rest)[1..] == rest;
    }
    RunTaskBlock(closed, n, t);
  }

  lemma {:induction false} RunRenderedFixed(s: State, ts: seq<Task>, n: nat)
    ensures Finish(RunFixed(s, RenderKinds(ts, n))) == Finish(s) + ts
    decreases |ts|
  {
    if ts == [] {
      assert RenderKinds(ts, n) == [];
      assert Finish(s) + ts == Finish(s);
    } else {
      RunTaskBlockFixed(s, n, ts[0]);
      var s1 := RunFixed(s, TaskBlockKinds(n, ts[0]));
      RunRenderedFixed(s1, ts[1..], n + 1);
      RunFixedAppend(s, TaskBlockKinds(n, ts[0]), RenderKinds(ts[1..], n + 1));
      assert Finish(s) + [ts[0]] + ts[1..] == Finish(s) + ts;
    }
  }

  /** The round trip the output grammar promises, for every list of renderable tasks: each
      title, description, criterion and subtask comes back under the task it was written for. */
  lemma RoundTripFixed(ts: seq<Task>)
    requires forall i :: 0 <= i < |ts| ==> Renderable(ts[i])
    ensures ParseTasksFixed(Render(ts)) == ts
  {
    var lines := RenderLines(ts, 1);
    if ts == [] {
      assert Split(Render(ts), '\n') == [""];
      assert Kinds([""]) == [Blank];
      assert RunFixed(Start, [Blank]) == Start;
    } else {
      RenderedLinesUnbroken(ts, 1);
      SplitJoin(lines, '\n');
      RenderLinesKinds(ts, 1);
      RunRenderedFixed(Start, ts, 1);
      assert Finish(Start) == [];
    }
  }

  /** Where the original parser already reads a rendering back correctly, the corrected one
      gives the same tasks. */
  lemma FixedAgreesOnCorrectLayouts(ts: seq<Task>)
    requires forall i :: 0 <= i < |ts| ==> Renderable(ts[i])
    requires OnlyLastHasSubtasks(ts)
    ensures ParseTasksFixed(Render(ts)) == ParseTasks(Render(ts))
  {
    RoundTripFixed(ts);
    RoundTrip(ts);
  }

  /** The input of `StaleSubtaskExample`, read by the corrected parser: subtask B stays with A
      and task C keeps its own description and criterion. */
  lemma StaleSubtaskExampleFixed()
    ensures ParseTasksFixed(Render([Task("A", "", [], [Subtask("B", "", [])]), Task("C", "d", ["c"], [])]))
      == [Task("A", "", [], [Subtask("B", "", [])]), Task("C", "d", ["c"], [])]
  {
    var ts := [Task("A", "", [], [Subtask("B", "", [])]), Task("C", "d", ["c"], [])];
    assert Renderable(ts[0]) && Renderable(ts[1]);
    RoundTripFixed(ts);
  }
}
