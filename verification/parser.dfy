/**
 The stage-1 task-structure parser (`parse_tasks_from_file`): a line-by-line state machine over
 the stripped lines of the language model's answer. Its state is the list of finished tasks,
 the open task, the open subtask and the last task number seen. A task header closes the open
 task but not the open subtask: that subtask stays open, keeps receiving `Description:` and
 `- ` lines, and is later filed under the NEW task.
 */
module Parser {
  import opened Wrappers
  import opened Text

  datatype Subtask = Subtask(title: string, description: string, criteria: seq<string>)

  datatype Task = Task(title: string, description: string, criteria: seq<string>, subtasks: seq<Subtask>)

  /** The groups of `Task (\d+): (.+)`, the numeral already read with `int()`. */
  datatype TaskHeader = TaskHeader(number: nat, title: string)

  /** The groups of `Subtask (\d+\.\d+): (.+)`, the numeral split at its dot. */
  datatype SubtaskHeader = SubtaskHeader(major: string, minor: string, title: string)

  const TaskPrefix: string := "Task "
  const SubtaskPrefix: string := "Subtask "
  const DescriptionPrefix: string := "Description: "
  const CriteriaHeading: string := "Acceptance Criteria:"
  const ItemPrefix: string := "- "

  // ---------------------------------------------------------------------------
  // Recognisers (each anchored at the start of the line, as `re.match` is)

  /** What a closing `(.+)` group captures from `s`: the text before the first line break,
      provided it is not empty. */
  function GroupRest(s: string): (r: Option<string>)
    ensures r.Some? ==> r.value != [] && '\n' !in r.value && StartsWith(s, r.value)
    ensures s != [] && '\n' !in s ==> r == Some(s)
  {
    var t := TakeLine(s);
    if t == [] then None else Some(t)
  }

  function MatchTask(line: string): (r: Option<TaskHeader>)
    ensures r.Some? ==> r.value.title != [] && '\n' !in r.value.title
    ensures r.Some? ==> exists ds :: (ds != [] && AllDigits(ds) && DigitsValue(ds) == r.value.number &&
      StartsWith(line, TaskPrefix + ds + ": " + r.value.title))
  {
    if !StartsWith(line, TaskPrefix) then None
    else
      var rest := line[|TaskPrefix|..];
      var n := DigitRun(rest);
      if n == 0 || !StartsWith(rest[n..], ": ") then None
      else match GroupRest(rest[n + 2..])
        case None => None
        case Some(t) =>
          assert line == TaskPrefix + rest[..n] + ": " + rest[n + 2..];
          Some(TaskHeader(DigitsValue(rest[..n]), t))
  }

  function MatchSubtask(line: string): (r: Option<SubtaskHeader>)
    ensures r.Some? ==> r.value.major != [] && AllDigits(r.value.major)
    ensures r.Some? ==> r.value.minor != [] && AllDigits(r.value.minor)
    ensures r.Some? ==> r.value.title != [] && '\n' !in r.value.title
    ensures r.Some? ==> StartsWith(line, SubtaskPrefix)
  {
    if !StartsWith(line, SubtaskPrefix) then None
    else
      var rest := line[|SubtaskPrefix|..];
      var a := DigitRun(rest);
      if a == 0 || a == |rest| || rest[a] != '.' then None
      else
        var tail := rest[a + 1..];
        var b := DigitRun(tail);
        if b == 0 || !StartsWith(tail[b..], ": ") then None
        else match GroupRest(tail[b + 2..])
          case None => None
          case Some(t) => Some(SubtaskHeader(rest[..a], tail[..b], t))
  }

  function MatchDescription(line: string): (r: Option<string>)
    ensures r.Some? ==> r.value != [] && '\n' !in r.value
    ensures r.Some? ==> StartsWith(line, DescriptionPrefix + r.value)
  {
    if !StartsWith(line, DescriptionPrefix) then None
    else
      var g := GroupRest(line[|DescriptionPrefix|..]);
      if g.Some? then
        assert line == DescriptionPrefix + line[|DescriptionPrefix|..];
        g
      else None
  }

  /** How the loop body treats one raw line, the recognisers tried in the source's order. */
  datatype LineKind =
    | Blank
    | TaskLine(task: TaskHeader)
    | SubtaskLine(subtask: SubtaskHeader)
    | DescriptionLine(text: string)
    | CriteriaHeadingLine
    | ItemLine(item: string)
    | OtherLine

  /** The classification does not depend on the parser state. Where the source tests for an
      open task together with the subtask pattern and otherwise falls through to the later
      recognisers, none of those can match a line that starts with `Subtask `, so the line
      is ignored either way; the second ensures records this. */
  function Classify(raw: string): (k: LineKind)
    ensures k.ItemLine? ==> Trimmed(k.item)
    ensures k.SubtaskLine? ==>
      MatchDescription(Strip(raw)).None? && !StartsWith(Strip(raw), CriteriaHeading) &&
      !StartsWith(Strip(raw), ItemPrefix)
  {
    var line := Strip(raw);
    if line == [] then Blank
    else match MatchTask(line)
      case Some(h) => TaskLine(h)
      case None => match MatchSubtask(line)
        case Some(h) =>
          SubtaskLineMatchesNothingLater(line);
          SubtaskLine(h)
        case None => match MatchDescription(line)
          case Some(d) => DescriptionLine(d)
          case None =>
            if StartsWith(line, CriteriaHeading) then CriteriaHeadingLine
            else if StartsWith(line, ItemPrefix) then
              ItemTrimmed(line);
              ItemLine(Strip(line[|ItemPrefix|..]))
            else OtherLine
  }

  lemma SubtaskLineMatchesNothingLater(line: string)
    requires StartsWith(line, SubtaskPrefix)
    ensures MatchDescription(line).None? && !StartsWith(line, CriteriaHeading) && !StartsWith(line, ItemPrefix)
  {
    assert line[0] == 'S';
  }

  /** A stripped `- ` line always carries a non-empty item. */
  lemma ItemTrimmed(line: string)
    requires Trimmed(line) && StartsWith(line, ItemPrefix)
    ensures Trimmed(Strip(line[|ItemPrefix|..]))
  {
    assert line[1] == ' ' && !IsSpace(line[|line| - 1]);
    var rest := line[|ItemPrefix|..];
    assert rest[|rest| - 1] == line[|line| - 1];
    assert !AllSpace(rest);
  }

  /** Lines every state ignores. */
  predicate Ignorable(raw: string) {
    Classify(raw).Blank? || Classify(raw).CriteriaHeadingLine? || Classify(raw).OtherLine?
  }

  // ---------------------------------------------------------------------------
  // Ordinal repair (logged only)

  /** The subtask ordinal the source writes to its log for a subtask header read while task
      number `counter` is the last one seen. The declared `a.b` is kept when it already starts
      with `counter.`, otherwise it is rebuilt from `counter` and the part after the dot; either
      way the result is `counter.b`. No task or subtask record stores it. */
  function RepairedOrdinal(counter: nat, h: SubtaskHeader): (r: string)
    requires AllDigits(h.major)
    ensures r == NatToString(counter) + "." + h.minor
    ensures r == h.major + "." + h.minor <==> h.major == NatToString(counter)
  {
    var declared := h.major + "." + h.minor;
    var expected := NatToString(counter) + ".";
    if StartsWith(declared, expected) then
      DottedPrefix(h.major, h.minor, NatToString(counter));
      declared
    else
      NatToString(counter) + "." + h.minor
  }

  /** `major.minor` starts with `c.` only when `major` is `c`, both being digit strings. */
  lemma DottedPrefix(major: string, minor: string, c: string)
    requires AllDigits(major) && AllDigits(c)
    requires StartsWith(major + "." + minor, c + ".")
    ensures major == c
  {
    var s := major + "." + minor;
    assert s[..|c|] == c && s[|c|] == '.';
    assert s[|major|] == '.';
    assert |major| < |c| ==> s[|major|] == c[|major|] && IsDigit(c[|major|]);
    assert |major| > |c| ==> s[|c|] == major[|c|] && IsDigit(major[|c|]);
    assert s[..|major|] == major;
  }

  // ---------------------------------------------------------------------------
  // The state machine

  datatype State = State(done: seq<Task>, task: Option<Task>, subtask: Option<Subtask>, counter: nat)

  const Start: State := State([], None, None, 0)

  /** A subtask is only ever opened while a task is open, and an open task is never dropped. */
  predicate Valid(s: State) {
    s.subtask.Some? ==> s.task.Some?
  }

  /** `current_task['subtasks'].append(current_subtask)` when a subtask is open. */
  function Flush(t: Task, sub: Option<Subtask>): (r: Task)
    ensures r.title == t.title && r.description == t.description && r.criteria == t.criteria
    ensures sub.None? ==> r == t
    ensures sub.Some? ==> r.subtasks == t.subtasks + [sub.value]
  {
    if sub.Some? then t.(subtasks := t.subtasks + [sub.value]) else t
  }

  function Closed(t: Option<Task>): seq<Task> {
    if t.Some? then [t.value] else []
  }

  /** One iteration of the loop body, on a line already classified. */
  function StepKind(s: State, k: LineKind): (r: State)
    ensures Valid(s) ==> Valid(r)
    // Once a task is open, some task stays open.
    ensures r.task.Some? <==> s.task.Some? || k.TaskLine?
    // Lines that match nothing, and blank lines, leave the state unchanged.
    ensures k.Blank? || k.CriteriaHeadingLine? || k.OtherLine? ==> r == s
    // A task header closes the open task, opens an empty one and leaves the subtask open.
    ensures k.TaskLine? ==>
      && r.done == s.done + Closed(s.task)
      && r.task == Some(Task(k.task.title, "", [], []))
      && r.subtask == s.subtask
    // A subtask header files the open subtask under the open task and opens a new one;
    // without an open task it is ignored.
    ensures k.SubtaskLine? && s.task.None? ==> r == s
    ensures k.SubtaskLine? && s.task.Some? ==>
      && r.done == s.done
      && r.task == Some(Flush(s.task.value, s.subtask))
      && r.subtask == Some(Subtask(k.subtask.title, "", []))
    // `Description:` overwrites the description of the innermost open entity.
    ensures k.DescriptionLine? && s.subtask.Some? ==>
      r == s.(subtask := Some(s.subtask.value.(description := k.text)))
    ensures k.DescriptionLine? && s.subtask.None? && s.task.Some? ==>
      r == s.(task := Some(s.task.value.(description := k.text)))
    // `- ` items are appended to the criteria of the innermost open entity.
    ensures k.ItemLine? && s.subtask.Some? ==>
      r == s.(subtask := Some(s.subtask.value.(criteria := s.subtask.value.criteria + [k.item])))
    ensures k.ItemLine? && s.subtask.None? && s.task.Some? ==>
      r == s.(task := Some(s.task.value.(criteria := s.task.value.criteria + [k.item])))
    // With nothing open, descriptions and items are dropped.
    ensures (k.DescriptionLine? || k.ItemLine?) && s.task.None? && s.subtask.None? ==> r == s
  {
    match k
    case TaskLine(h) =>
      State(s.done + Closed(s.task), Some(Task(h.title, "", [], [])), s.subtask, h.number)
    case SubtaskLine(h) =>
      if s.task.None? then s
      else s.(task := Some(Flush(s.task.value, s.subtask)), subtask := Some(Subtask(h.title, "", [])))
    case DescriptionLine(d) =>
      if s.subtask.Some? then s.(subtask := Some(s.subtask.value.(description := d)))
      else if s.task.Some? then s.(task := Some(s.task.value.(description := d)))
      else s
    case ItemLine(c) =>
      if s.subtask.Some? then s.(subtask := Some(s.subtask.value.(criteria := s.subtask.value.criteria + [c])))
      else if s.task.Some? then s.(task := Some(s.task.value.(criteria := s.task.value.criteria + [c])))
      else s
    case _ => s
  }

  /** The loop body on one raw line. */
  function Step(s: State, raw: string): State {
    StepKind(s, Classify(raw))
  }

  /** The classification of every line, in order; the loop then folds `StepKind` over it. */
  function Kinds(lines: seq<string>): (ks: seq<LineKind>)
    ensures |ks| == |lines|
    decreases |lines|
  {
    if lines == [] then [] else [Classify(lines[0])] + Kinds(lines[1..])
  }

  lemma {:induction false} KindAt(lines: seq<string>, i: nat)
    requires i < |lines|
    ensures Kinds(lines)[i] == Classify(lines[i])
    decreases i
  {
    if i > 0 {
      assert Kinds(lines) == [Classify(lines[0])] + Kinds(lines[1..]);
      KindAt(lines[1..], i - 1);
      assert lines[1..][i - 1] == lines[i];
    }
  }

  function Run(s: State, ks: seq<LineKind>): State
    decreases |ks|
  {
    if ks == [] then s else Run(StepKind(s, ks[0]), ks[1..])
  }

  /** The final flush: the open subtask goes into the open task, the open task into the output. */
  function Finish(s: State): seq<Task> {
    var last := if s.subtask.Some? && s.task.Some? then Some(Flush(s.task.value, s.subtask)) else s.task;
    s.done + Closed(last)
  }

  // ---------------------------------------------------------------------------
  // Reference definitions of what the parse must conserve

  function Titles(ts: seq<Task>): seq<string>
    decreases |ts|
  {
    if ts == [] then [] else [ts[0].title] + Titles(ts[1..])
  }

  function SubtaskTitles(subs: seq<Subtask>): seq<string>
    decreases |subs|
  {
    if subs == [] then [] else [subs[0].title] + SubtaskTitles(subs[1..])
  }

  /** Titles of all subtasks of all tasks, in output order. */
  function AllSubtaskTitles(ts: seq<Task>): seq<string>
    decreases |ts|
  {
    if ts == [] then [] else SubtaskTitles(ts[0].subtasks) + AllSubtaskTitles(ts[1..])
  }

  /** Titles of the task-header lines, in input order. */
  function HeaderTitles(ks: seq<LineKind>): seq<string>
    decreases |ks|
  {
    if ks == [] then []
    else if ks[0].TaskLine? then [ks[0].task.title] + HeaderTitles(ks[1..])
    else HeaderTitles(ks[1..])
  }

  /** Titles of the subtask-header lines that come after some task header (`open` says
      whether one has been seen already), in input order. */
  function HonouredSubtaskTitles(ks: seq<LineKind>, open: bool): seq<string>
    decreases |ks|
  {
    if ks == [] then []
    else if ks[0].TaskLine? then HonouredSubtaskTitles(ks[1..], true)
    else if ks[0].SubtaskLine? then (if open then [ks[0].subtask.title] else []) + HonouredSubtaskTitles(ks[1..], open)
    else HonouredSubtaskTitles(ks[1..], open)
  }

  /** The lines that some state does not ignore, in order. */
  function Significant(lines: seq<string>): (r: seq<string>)
    ensures forall x :: x in r ==> !Ignorable(x)
    decreases |lines|
  {
    if lines == [] then []
    else if Ignorable(lines[0]) then Significant(lines[1..])
    else [lines[0]] + Significant(lines[1..])
  }

  /** Only ignorable lines are dropped, and nothing is added. */
  lemma SignificantKeeps(lines: seq<string>)
    ensures forall i :: 0 <= i < |lines| && !Ignorable(lines[i]) ==> lines[i] in Significant(lines)
    ensures forall x :: x in Significant(lines) ==> x in lines
  {
    SignificantKeepsAll(lines);
    SignificantWithin(lines);
  }

  lemma SignificantKeepsAll(lines: seq<string>)
    ensures forall i :: 0 <= i < |lines| && !Ignorable(lines[i]) ==> lines[i] in Significant(lines)
  {
    forall i | 0 <= i < |lines| && !Ignorable(lines[i])
      ensures lines[i] in Significant(lines)
    {
      SignificantKeepsAt(lines, i);
    }
  }

  lemma {:induction false} SignificantKeepsAt(lines: seq<string>, i: nat)
    requires i < |lines| && !Ignorable(lines[i])
    ensures lines[i] in Significant(lines)
    decreases i
  {
    var tail := lines[1..];
    if i > 0 {
      assert tail[i - 1] == lines[i];
      SignificantKeepsAt(tail, i - 1);
      assert Significant(lines) == Significant(tail) || Significant(lines) == [lines[0]] + Significant(tail);
    }
  }

  lemma {:induction false} SignificantWithin(lines: seq<string>)
    ensures forall x :: x in Significant(lines) ==> x in lines
    decreases |lines|
  {
    if lines != [] {
      var tail := lines[1..];
      SignificantWithin(tail);
      forall x | x in Significant(lines)
        ensures x in lines
      {
        if x in Significant(tail) {
          assert x in tail;
        }
      }
    }
  }

  // ---------------------------------------------------------------------------
  // The parser and its conservation laws

  /** `parse_tasks_from_file` after the file has been read: one task per task-header line, in
      order, and one subtask per honoured subtask-header line, in order. */
  function ParseLines(lines: seq<string>): (r: seq<Task>)
    ensures Titles(r) == HeaderTitles(Kinds(lines))
    ensures |r| == |HeaderTitles(Kinds(lines))|
    ensures AllSubtaskTitles(r) == HonouredSubtaskTitles(Kinds(lines), false)
  {
    var last := Run(Start, Kinds(lines));
    RunTaskTitles(Start, Kinds(lines));
    FinishTaskTitles(last);
    RunSubtaskTitles(Start, Kinds(lines));
    FinishSubtaskTitles(last);
    TitlesLength(Finish(last));
    Finish(last)
  }

  /** The text is split at every `\n`, as `str.split('\n')` does. */
  function ParseTasks(text: string): (r: seq<Task>)
    ensures |r| == |HeaderTitles(Kinds(Split(text, '\n')))|
  {
    ParseLines(Split(text, '\n'))
  }

  lemma {:induction false} TitlesLength(ts: seq<Task>)
    ensures |Titles(ts)| == |ts|
    decreases |ts|
  {
    if ts != [] {
      TitlesLength(ts[1..]);
    }
  }

  lemma {:induction false} TitlesAppend(a: seq<Task>, b: seq<Task>)
    ensures Titles(a + b) == Titles(a) + Titles(b)
    decreases |a|
  {
    if a == [] {
      assert a + b == b;
    } else {
      assert (a + b)[1..] == a[1..] + b;
      TitlesAppend(a[1..], b);
    }
  }

  lemma {:induction false} SubtaskTitlesAppend(a: seq<Subtask>, b: seq<Subtask>)
    ensures SubtaskTitles(a + b) == SubtaskTitles(a) + SubtaskTitles(b)
    decreases |a|
  {
    if a == [] {
      assert a + b == b;
    } else {
      assert (a + b)[1..] == a[1..] + b;
      SubtaskTitlesAppend(a[1..], b);
    }
  }

  lemma {:induction false} AllSubtaskTitlesAppend(a: seq<Task>, b: seq<Task>)
    ensures AllSubtaskTitles(a + b) == AllSubtaskTitles(a) + AllSubtaskTitles(b)
    decreases |a|
  {
    if a == [] {
      assert a + b == b;
    } else {
      assert (a + b)[1..] == a[1..] + b;
      AllSubtaskTitlesAppend(a[1..], b);
    }
  }

  /** Titles of the tasks finished or open in a state. */
  function TaskTitlesSoFar(s: State): seq<string> {
    Titles(s.done) + (if s.task.Some? then [s.task.value.title] else [])
  }

  /** Titles of the subtasks finished or open in a state, in the order they will be output. */
  function SubtaskTitlesSoFar(s: State): seq<string> {
    AllSubtaskTitles(s.done)
    + (if s.task.Some? then SubtaskTitles(s.task.value.subtasks) else [])
    + (if s.subtask.Some? then [s.subtask.value.title] else [])
  }

  lemma StepTaskTitles(s: State, k: LineKind)
    ensures TaskTitlesSoFar(StepKind(s, k)) ==
      TaskTitlesSoFar(s) + (if k.TaskLine? then [k.task.title] else [])
  {
    if k.TaskLine? {
      TitlesAppend(s.done, Closed(s.task));
    }
  }

  lemma {:induction false} RunTaskTitles(s: State, ks: seq<LineKind>)
    ensures TaskTitlesSoFar(Run(s, ks)) == TaskTitlesSoFar(s) + HeaderTitles(ks)
    decreases |ks|
  {
    if ks != [] {
      StepTaskTitles(s, ks[0]);
      RunTaskTitles(StepKind(s, ks[0]), ks[1..]);
    }
  }

  lemma FinishTaskTitles(s: State)
    ensures Titles(Finish(s)) == TaskTitlesSoFar(s)
  {
    var last := if s.subtask.Some? && s.task.Some? then Some(Flush(s.task.value, s.subtask)) else s.task;
    TitlesAppend(s.done, Closed(last));
  }

  lemma StepSubtaskTitles(s: State, k: LineKind)
    requires Valid(s)
    ensures SubtaskTitlesSoFar(StepKind(s, k)) ==
      SubtaskTitlesSoFar(s) + (if k.SubtaskLine? && s.task.Some? then [k.subtask.title] else [])
  {
    match k
    case TaskLine(h) =>
      AllSubtaskTitlesAppend(s.done, Closed(s.task));
    case SubtaskLine(h) =>
      if s.task.Some? && s.subtask.Some? {
        SubtaskTitlesAppend(s.task.value.subtasks, [s.subtask.value]);
      }
    case _ =>
  }

  lemma {:induction false} RunSubtaskTitles(s: State, ks: seq<LineKind>)
    requires Valid(s)
    ensures Valid(Run(s, ks))
    ensures SubtaskTitlesSoFar(Run(s, ks)) == SubtaskTitlesSoFar(s) + HonouredSubtaskTitles(ks, s.task.Some?)
    decreases |ks|
  {
    if ks != [] {
      var next := StepKind(s, ks[0]);
      StepSubtaskTitles(s, ks[0]);
      RunSubtaskTitles(next, ks[1..]);
      assert Run(s, ks) == Run(next, ks[1..]);
      assert HonouredSubtaskTitles(ks, s.task.Some?) ==
        (if ks[0].SubtaskLine? && s.task.Some? then [ks[0].subtask.title] else []) +
        HonouredSubtaskTitles(ks[1..], next.task.Some?);
    }
  }

  lemma FinishSubtaskTitles(s: State)
    requires Valid(s)
    ensures AllSubtaskTitles(Finish(s)) == SubtaskTitlesSoFar(s)
  {
    var last := if s.subtask.Some? && s.task.Some? then Some(Flush(s.task.value, s.subtask)) else s.task;
    AllSubtaskTitlesAppend(s.done, Closed(last));
    if s.subtask.Some? {
      SubtaskTitlesAppend(s.task.value.subtasks, [s.subtask.value]);
    }
  }

  lemma {:induction false} RunAppend(s: State, a: seq<LineKind>, b: seq<LineKind>)
    ensures Run(s, a + b) == Run(Run(s, a), b)
    decreases |a|
  {
    if a == [] {
      assert a + b == b;
    } else {
      assert (a + b)[1..] == a[1..] + b;
      RunAppend(StepKind(s, a[0]), a[1..], b);
    }
  }

  lemma {:induction false} KindsAppend(a: seq<string>, b: seq<string>)
    ensures Kinds(a + b) == Kinds(a) + Kinds(b)
    decreases |a|
  {
    if a == [] {
      assert a + b == b;
    } else {
      assert (a + b)[0] == a[0];
      assert (a + b)[1..] == a[1..] + b;
      KindsAppend(a[1..], b);
    }
  }

  /** Blank lines, `Acceptance Criteria:` lines and stray prose can be dropped anywhere in the
      input without changing the result. */
  lemma {:induction false} IgnorableLinesIrrelevant(s: State, lines: seq<string>)
    ensures Run(s, Kinds(Significant(lines))) == Run(s, Kinds(lines))
    decreases |lines|
  {
    if lines != [] {
      IgnorableLinesIrrelevant(StepKind(s, Classify(lines[0])), lines[1..]);
      assert Kinds(lines)[1..] == Kinds(lines[1..]);
      if Ignorable(lines[0]) {
        IgnorableLinesIrrelevant(s, lines[1..]);
      } else {
        assert Kinds([lines[0]] + Significant(lines[1..]))[1..] == Kinds(Significant(lines[1..]));
      }
    }
  }

  /** Hence the parse result itself ignores those lines. */
  lemma ParseIgnoresNoise(lines: seq<string>)
    ensures ParseLines(Significant(lines)) == ParseLines(lines)
  {
    IgnorableLinesIrrelevant(Start, lines);
  }
}
