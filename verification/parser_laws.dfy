/**
 Laws of the stage-1 parser stated against the output grammar the prompt asks the model for
 (`Task N: title`, `Description: text`, `Acceptance Criteria:`, `- item`, `Subtask N.M: title`):
 which kind each rendered line is read as, that task and subtask numbers never reach the parsed
 records, and that parsing a rendering gives the tasks back exactly when no task but the last
 has subtasks. The stale-subtask reassignment is exhibited on concrete inputs.
 */
module ParserLaws {
  import opened Wrappers
  import opened Text
  import opened Parser

  // ---------------------------------------------------------------------------
  // What a field must look like to survive a rendering

  /** A title or description the grammar carries unchanged: one line, not ending in whitespace. */
  predicate Carriable(s: string) {
    s != [] && '\n' !in s && !IsSpace(s[|s| - 1])
  }

  /** A criterion survives `line[2:].strip()` only if it has no surrounding whitespace. */
  predicate ItemCarriable(c: string) {
    Trimmed(c) && '\n' !in c
  }

  predicate FieldsCarriable(title: string, description: string, criteria: seq<string>) {
    && Carriable(title)
    && (description == [] || Carriable(description))
    && forall i :: 0 <= i < |criteria| ==> ItemCarriable(criteria[i])
  }

  predicate Renderable(t: Task) {
    && FieldsCarriable(t.title, t.description, t.criteria)
    && forall j :: 0 <= j < |t.subtasks| ==>
         FieldsCarriable(t.subtasks[j].title, t.subtasks[j].description, t.subtasks[j].criteria)
  }

  predicate OnlyLastHasSubtasks(ts: seq<Task>) {
    forall i :: 0 <= i < |ts| - 1 ==> ts[i].subtasks == []
  }

  // ---------------------------------------------------------------------------
  // Rendering in the prompt's grammar

  function TaskHeaderLine(digits: string, title: string): string {
    TaskPrefix + digits + ": " + title
  }

  function SubtaskHeaderLine(major: string, minor: string, title: string): string {
    SubtaskPrefix + major + "." + minor + ": " + title
  }

  function DescriptionLines(d: string): seq<string> {
    if d == [] then [] else [DescriptionPrefix + d]
  }

  function ItemLines(cs: seq<string>): (r: seq<string>)
    ensures |r| == |cs|
  {
    seq(|cs|, i requires 0 <= i < |cs| => ItemPrefix + cs[i])
  }

  /** Description, criteria heading, criteria items and a blank separator line. */
  function BodyLines(d: string, cs: seq<string>): seq<string> {
    DescriptionLines(d) + [CriteriaHeading] + ItemLines(cs) + [""]
  }

  function SubtaskBlocks(n: nat, subs: seq<Subtask>, m: nat): seq<string>
    decreases |subs|
  {
    if subs == [] then []
    else
      [SubtaskHeaderLine(NatToString(n), NatToString(m), subs[0].title)]
      + BodyLines(subs[0].description, subs[0].criteria)
      + SubtaskBlocks(n, subs[1..], m + 1)
  }

  function TaskBlock(n: nat, t: Task): seq<string> {
    [TaskHeaderLine(NatToString(n), t.title)] + BodyLines(t.description, t.criteria) + SubtaskBlocks(n, t.subtasks, 1)
  }

  function RenderLines(ts: seq<Task>, n: nat): seq<string>
    decreases |ts|
  {
    if ts == [] then [] else TaskBlock(n, ts[0]) + RenderLines(ts[1..], n + 1)
  }

  /** The tasks written out as the prompt's example output, numbered from 1. */
  function Render(ts: seq<Task>): string {
    Join(RenderLines(ts, 1), "\n")
  }

  // ---------------------------------------------------------------------------
  // How each rendered line is classified

  /** Neither header recogniser accepts a line that starts with something other than `T`/`S`. */
  lemma NoHeaderMatch(line: string)
    requires line != [] && line[0] != 'T' && line[0] != 'S'
    ensures MatchTask(line).None? && MatchSubtask(line).None?
  {
    assert !StartsWith(line, TaskPrefix) by { assert TaskPrefix[0] == 'T'; }
    assert !StartsWith(line, SubtaskPrefix) by { assert SubtaskPrefix[0] == 'S'; }
  }

  lemma MatchTaskOf(digits: string, title: string)
    requires digits != [] && AllDigits(digits) && title != [] && '\n' !in title
    ensures MatchTask(TaskHeaderLine(digits, title)) == Some(TaskHeader(DigitsValue(digits), title))
  {
    var line := TaskHeaderLine(digits, title);
    assert line[..|TaskPrefix|] == TaskPrefix;
    var rest := line[|TaskPrefix|..];
    assert rest == digits + (": " + title);
    DigitRunOfDigits(digits, ": " + title);
    assert rest[..|digits|] == digits;
    assert rest[|digits|..] == ": " + title;
    assert rest[|digits| + 2..] == title;
  }

  lemma TaskHeaderClassified(digits: string, title: string)
    requires digits != [] && AllDigits(digits) && Carriable(title)
    ensures Classify(TaskHeaderLine(digits, title)) == TaskLine(TaskHeader(DigitsValue(digits), title))
  {
    var line := TaskHeaderLine(digits, title);
    assert line[0] == 'T' && line[|line| - 1] == title[|title| - 1];
    StripTrimmed(line);
    MatchTaskOf(digits, title);
  }

  lemma MatchSubtaskOf(major: string, minor: string, title: string)
    requires major != [] && AllDigits(major) && minor != [] && AllDigits(minor)
    requires title != [] && '\n' !in title
    ensures MatchTask(SubtaskHeaderLine(major, minor, title)).None?
    ensures MatchSubtask(SubtaskHeaderLine(major, minor, title)) == Some(SubtaskHeader(major, minor, title))
  {
    var line := SubtaskHeaderLine(major, minor, title);
    assert line[0] == 'S';
    assert !StartsWith(line, TaskPrefix) by { assert TaskPrefix[0] == 'T'; }
    assert line[..|SubtaskPrefix|] == SubtaskPrefix;
    var tail := minor + ": " + title;
    var rest := line[|SubtaskPrefix|..];
    assert rest == major + "." + tail;
    SubtaskMajorPart(major, tail);
    SubtaskMinorPart(minor, title);
    var a, b := |major|, |minor|;
    assert rest[a + 1..] == tail && tail[b + 2..] == title;
    assert GroupRest(title) == Some(title);
  }

  /** After `Subtask `: the major number's digits, then the dot. */
  lemma SubtaskMajorPart(major: string, tail: string)
    requires major != [] && AllDigits(major)
    ensures var rest := major + "." + tail;
      var a := DigitRun(rest);
      && a == |major| && a < |rest| && rest[a] == '.' && rest[..a] == major && rest[a + 1..] == tail
  {
    var rest := major + "." + tail;
    assert rest == major + ("." + tail);
    DigitRunOfDigits(major, "." + tail);
    assert rest[..|major|] == major;
    assert rest[|major| + 1..] == tail;
  }

  /** After the dot: the minor number's digits, `: ` and the title. */
  lemma SubtaskMinorPart(minor: string, title: string)
    requires minor != [] && AllDigits(minor) && title != [] && '\n' !in title
    ensures var tail := minor + ": " + title;
      var b := DigitRun(tail);
      && b == |minor| && tail[..b] == minor && StartsWith(tail[b..], ": ") && tail[b + 2..] == title
  {
    var tail := minor + ": " + title;
    assert tail == minor + (": " + title);
    DigitRunOfDigits(minor, ": " + title);
    assert tail[..|minor|] == minor;
    assert tail[|minor|..] == ": " + title;
    assert tail[|minor| + 2..] == title;
  }

  lemma SubtaskHeaderClassified(major: string, minor: string, title: string)
    requires major != [] && AllDigits(major) && minor != [] && AllDigits(minor) && Carriable(title)
    ensures Classify(SubtaskHeaderLine(major, minor, title)) == SubtaskLine(SubtaskHeader(major, minor, title))
  {
    var line := SubtaskHeaderLine(major, minor, title);
    assert line[0] == 'S' && line[|line| - 1] == title[|title| - 1];
    StripTrimmed(line);
    MatchSubtaskOf(major, minor, title);
  }

  lemma MatchDescriptionOf(d: string)
    requires d != [] && '\n' !in d
    ensures MatchDescription(DescriptionPrefix + d) == Some(d)
  {
    var line := DescriptionPrefix + d;
    assert line[..|DescriptionPrefix|] == DescriptionPrefix;
    assert line[|DescriptionPrefix|..] == d;
  }

  lemma DescriptionClassified(d: string)
    requires Carriable(d)
    ensures Classify(DescriptionPrefix + d) == DescriptionLine(d)
  {
    var line := DescriptionPrefix + d;
    assert line[0] == 'D' && line[|line| - 1] == d[|d| - 1];
    StripTrimmed(line);
    NoHeaderMatch(line);
    MatchDescriptionOf(d);
  }

  /** A stripped line that no header or `Description:` recogniser accepts is classified by its
      prefix alone. */
  lemma FallThroughClassified(line: string)
    requires Trimmed(line) && line[0] != 'T' && line[0] != 'S' && !StartsWith(line, DescriptionPrefix)
    ensures Classify(line) ==
      if StartsWith(line, CriteriaHeading) then CriteriaHeadingLine
      else if StartsWith(line, ItemPrefix) then ItemLine(Strip(line[|ItemPrefix|..]))
      else OtherLine
  {
    StripTrimmed(line);
    NoHeaderMatch(line);
  }

  lemma HeadingClassified(line: string)
    requires line == CriteriaHeading
    ensures Classify(line) == CriteriaHeadingLine
  {
    assert Trimmed(line) && line[0] == 'A';
    assert !StartsWith(line, DescriptionPrefix) by { assert DescriptionPrefix[0] == 'D'; }
    FallThroughClassified(line);
  }

  lemma ItemClassified(c: string)
    requires ItemCarriable(c)
    ensures Classify(ItemPrefix + c) == ItemLine(c)
  {
    var line := ItemPrefix + c;
    assert line[0] == '-' && line[|line| - 1] == c[|c| - 1];
    StripTrimmed(line);
    NoHeaderMatch(line);
    assert !StartsWith(line, DescriptionPrefix) by { assert DescriptionPrefix[0] == 'D'; }
    assert !StartsWith(line, CriteriaHeading) by { assert CriteriaHeading[0] == 'A'; }
    assert line[..|ItemPrefix|] == ItemPrefix;
    assert line[|ItemPrefix|..] == c;
    StripTrimmed(c);
  }

  lemma BlankClassified()
    ensures Classify("") == Blank
  {
  }

  // ---------------------------------------------------------------------------
  // Numbers never reach the records

  /** Two subtask headers that differ only in their `a.b` numeral have the same effect. */
  lemma SubtaskNumberIrrelevant(s: State, a1: string, b1: string, a2: string, b2: string, title: string)
    requires a1 != [] && AllDigits(a1) && b1 != [] && AllDigits(b1)
    requires a2 != [] && AllDigits(a2) && b2 != [] && AllDigits(b2)
    requires Carriable(title)
    ensures Step(s, SubtaskHeaderLine(a1, b1, title)) == Step(s, SubtaskHeaderLine(a2, b2, title))
  {
    var h1, h2 := SubtaskHeader(a1, b1, title), SubtaskHeader(a2, b2, title);
    SubtaskHeaderClassified(a1, b1, title);
    SubtaskHeaderClassified(a2, b2, title);
    assert Step(s, SubtaskHeaderLine(a1, b1, title)) == StepKind(s, SubtaskLine(h1));
    assert Step(s, SubtaskHeaderLine(a2, b2, title)) == StepKind(s, SubtaskLine(h2));
    SubtaskKindTitleOnly(s, h1, h2);
  }

  /** A subtask header's effect depends on its title alone. */
  lemma SubtaskKindTitleOnly(s: State, h1: SubtaskHeader, h2: SubtaskHeader)
    requires h1.title == h2.title
    ensures StepKind(s, SubtaskLine(h1)) == StepKind(s, SubtaskLine(h2))
  {
  }

  /** Two task headers that differ only in their number have the same effect on everything but
      the logged counter. */
  lemma TaskNumberOnlySetsCounter(s: State, d1: string, d2: string, title: string)
    requires d1 != [] && AllDigits(d1) && d2 != [] && AllDigits(d2) && Carriable(title)
    ensures Step(s, TaskHeaderLine(d1, title)).(counter := 0) == Step(s, TaskHeaderLine(d2, title)).(counter := 0)
    ensures Step(s, TaskHeaderLine(d1, title)).counter == DigitsValue(d1)
  {
    TaskHeaderClassified(d1, title);
    TaskHeaderClassified(d2, title);
  }

  // ---------------------------------------------------------------------------
  // Kinds of a rendering

  function ItemKinds(cs: seq<string>): (r: seq<LineKind>)
    ensures |r| == |cs|
  {
    seq(|cs|, i requires 0 <= i < |cs| => ItemLine(cs[i]))
  }

  function BodyKinds(d: string, cs: seq<string>): seq<LineKind> {
    (if d == [] then [] else [DescriptionLine(d)]) + [CriteriaHeadingLine] + ItemKinds(cs) + [Blank]
  }

  function SubtaskBlockKinds(n: nat, subs: seq<Subtask>, m: nat): seq<LineKind>
    decreases |subs|
  {
    if subs == [] then []
    else
      [SubtaskLine(SubtaskHeader(NatToString(n), NatToString(m), subs[0].title))]
      + BodyKinds(subs[0].description, subs[0].criteria)
      + SubtaskBlockKinds(n, subs[1..], m + 1)
  }

  function TaskBlockKinds(n: nat, t: Task): seq<LineKind> {
    [TaskLine(TaskHeader(n, t.title))] + BodyKinds(t.description, t.criteria) + SubtaskBlockKinds(n, t.subtasks, 1)
  }

  /** The first item line and kind, and the rest. */
  lemma ItemsUncons(cs: seq<string>)
    requires cs != []
    ensures ItemLines(cs) == [ItemPrefix + cs[0]] + ItemLines(cs[1..])
    ensures ItemKinds(cs) == [ItemLine(cs[0])] + ItemKinds(cs[1..])
  {
    var l, t := ItemLines(cs), ItemLines(cs[1..]);
    forall i | 1 <= i < |l|
      ensures l[i] == t[i - 1]
    {
      assert cs[1..][i - 1] == cs[i];
    }
    assert l == [l[0]] + t;
    var k, u := ItemKinds(cs), ItemKinds(cs[1..]);
    forall i | 1 <= i < |k|
      ensures k[i] == u[i - 1]
    {
      assert cs[1..][i - 1] == cs[i];
    }
    assert k == [k[0]] + u;
  }

  lemma {:induction false} ItemLinesKinds(cs: seq<string>)
    requires forall i :: 0 <= i < |cs| ==> ItemCarriable(cs[i])
    ensures Kinds(ItemLines(cs)) == ItemKinds(cs)
    decreases |cs|
  {
    if cs != [] {
      ItemLinesKinds(cs[1..]);
      ItemClassified(cs[0]);
      ItemsUncons(cs);
      KindsCons(ItemPrefix + cs[0], ItemLines(cs[1..]), ItemLine(cs[0]), ItemKinds(cs[1..]));
    }
  }

  lemma BodyLinesKinds(d: string, cs: seq<string>)
    requires d == [] || Carriable(d)
    requires forall i :: 0 <= i < |cs| ==> ItemCarriable(cs[i])
    ensures Kinds(BodyLines(d, cs)) == BodyKinds(d, cs)
  {
    var dk: seq<LineKind> := if d == [] then [] else [DescriptionLine(d)];
    if d != [] {
      DescriptionClassified(d);
      KindsCons(DescriptionPrefix + d, [], DescriptionLine(d), []);
    }
    HeadingClassified(CriteriaHeading);
    KindsCons(CriteriaHeading, [], CriteriaHeadingLine, []);
    KindsJoin(DescriptionLines(d), [CriteriaHeading], dk, [CriteriaHeadingLine]);
    ItemLinesKinds(cs);
    KindsJoin(DescriptionLines(d) + [CriteriaHeading], ItemLines(cs), dk + [CriteriaHeadingLine], ItemKinds(cs));
    KindsCons("", [], Blank, []);
    KindsJoin(DescriptionLines(d) + [CriteriaHeading] + ItemLines(cs), [""],
      dk + [CriteriaHeadingLine] + ItemKinds(cs), [Blank]);
  }

  lemma {:induction false} SubtaskBlocksKinds(n: nat, subs: seq<Subtask>, m: nat)
    requires forall j :: 0 <= j < |subs| ==>
      FieldsCarriable(subs[j].title, subs[j].description, subs[j].criteria)
    ensures Kinds(SubtaskBlocks(n, subs, m)) == SubtaskBlockKinds(n, subs, m)
    decreases |subs|
  {
    if subs != [] {
      var st := subs[0];
      var block := [SubtaskHeaderLine(NatToString(n), NatToString(m), st.title)] + BodyLines(st.description, st.criteria);
      SubtaskBlockKindsOne(n, m, st);
      SubtaskBlocksKinds(n, subs[1..], m + 1);
      KindsJoin(block, SubtaskBlocks(n, subs[1..], m + 1),
        [SubtaskLine(SubtaskHeader(NatToString(n), NatToString(m), st.title))] + BodyKinds(st.description, st.criteria),
        SubtaskBlockKinds(n, subs[1..], m + 1));
    }
  }

  lemma SubtaskBlockKindsOne(n: nat, m: nat, st: Subtask)
    requires FieldsCarriable(st.title, st.description, st.criteria)
    ensures Kinds([SubtaskHeaderLine(NatToString(n), NatToString(m), st.title)] + BodyLines(st.description, st.criteria))
      == [SubtaskLine(SubtaskHeader(NatToString(n), NatToString(m), st.title))] + BodyKinds(st.description, st.criteria)
  {
    SubtaskHeaderClassified(NatToString(n), NatToString(m), st.title);
    BodyLinesKinds(st.description, st.criteria);
    KindsCons(SubtaskHeaderLine(NatToString(n), NatToString(m), st.title), BodyLines(st.description, st.criteria),
      SubtaskLine(SubtaskHeader(NatToString(n), NatToString(m), st.title)), BodyKinds(st.description, st.criteria));
  }

  lemma KindsCons(head: string, rest: seq<string>, hk: LineKind, rk: seq<LineKind>)
    requires Classify(head) == hk && Kinds(rest) == rk
    ensures Kinds([head] + rest) == [hk] + rk
  {
    var l := [head] + rest;
    assert l[0] == head && l[1..] == rest;
  }

  lemma TaskBlockKindsOf(n: nat, t: Task)
    requires Renderable(t)
    ensures Kinds(TaskBlock(n, t)) == TaskBlockKinds(n, t)
  {
    var head := TaskHeaderLine(NatToString(n), t.title);
    var body := BodyLines(t.description, t.criteria);
    var headK := TaskLine(TaskHeader(n, t.title));
    TaskHeaderClassified(NatToString(n), t.title);
    BodyLinesKinds(t.description, t.criteria);
    KindsCons(head, body, headK, BodyKinds(t.description, t.criteria));
    SubtaskBlocksKinds(n, t.subtasks, 1);
    KindsJoin([head] + body, SubtaskBlocks(n, t.subtasks, 1),
      [headK] + BodyKinds(t.description, t.criteria), SubtaskBlockKinds(n, t.subtasks, 1));
  }

  lemma KindsJoin(a: seq<string>, b: seq<string>, ka: seq<LineKind>, kb: seq<LineKind>)
    requires Kinds(a) == ka && Kinds(b) == kb
    ensures Kinds(a + b) == ka + kb
  {
    KindsAppend(a, b);
  }

  // ---------------------------------------------------------------------------
  // Running the parser over a rendering

  /** Items go, in order, to the innermost open entity. */
  lemma {:induction false} RunItems(s: State, cs: seq<string>)
    requires s.task.Some?
    ensures s.subtask.Some? ==>
      Run(s, ItemKinds(cs)) == s.(subtask := Some(s.subtask.value.(criteria := s.subtask.value.criteria + cs)))
    ensures s.subtask.None? ==>
      Run(s, ItemKinds(cs)) == s.(task := Some(s.task.value.(criteria := s.task.value.criteria + cs)))
    decreases |cs|
  {
    if cs == [] {
      assert ItemKinds(cs) == [];
      assert s.task.value.criteria + cs == s.task.value.criteria;
      assert s.subtask.Some? ==> s.subtask.value.criteria + cs == s.subtask.value.criteria;
    } else {
      var next := StepKind(s, ItemLine(cs[0]));
      assert ItemKinds(cs)[0] == ItemLine(cs[0]);
      assert ItemKinds(cs)[1..] == ItemKinds(cs[1..]);
      RunItems(next, cs[1..]);
      if s.subtask.Some? {
        assert s.subtask.value.criteria + [cs[0]] + cs[1..] == s.subtask.value.criteria + cs;
      } else {
        assert s.task.value.criteria + [cs[0]] + cs[1..] == s.task.value.criteria + cs;
      }
    }
  }

  /** A body read while a subtask is open lands in that subtask: a description replaces the
      subtask's own, the criteria are appended to its own. */
  lemma RunBodyIntoSubtask(s: State, d: string, cs: seq<string>)
    requires s.task.Some? && s.subtask.Some?
    ensures var sub := s.subtask.value;
      Run(s, BodyKinds(d, cs)) ==
        s.(subtask := Some(Subtask(sub.title, if d == [] then sub.description else d, sub.criteria + cs)))
  {
    var sub := s.subtask.value;
    var descK: seq<LineKind> := if d == [] then [] else [DescriptionLine(d)];
    var s1 := Run(s, descK);
    if d != [] {
      assert Run(s, descK) == Run(StepKind(s, DescriptionLine(d)), []);
    }
    assert s1 == s.(subtask := Some(Subtask(sub.title, if d == [] then sub.description else d, sub.criteria)));
    var s2 := Run(s1, [CriteriaHeadingLine]);
    assert s2 == s1;
    RunItems(s2, cs);
    var s3 := Run(s2, ItemKinds(cs));
    assert Run(s3, [Blank]) == s3;
    RunAppend(s, descK, [CriteriaHeadingLine]);
    RunAppend(s, descK + [CriteriaHeadingLine], ItemKinds(cs));
    RunAppend(s, descK + [CriteriaHeadingLine] + ItemKinds(cs), [Blank]);
  }

  lemma RunBodyIntoTask(s: State, title: string, d: string, cs: seq<string>, subs: seq<Subtask>)
    requires s.task == Some(Task(title, "", [], subs)) && s.subtask.None?
    ensures Run(s, BodyKinds(d, cs)) == s.(task := Some(Task(title, d, cs, subs)))
  {
    var descK: seq<LineKind> := if d == [] then [] else [DescriptionLine(d)];
    var s1 := Run(s, descK);
    if d != [] {
      assert Run(s, descK) == Run(StepKind(s, DescriptionLine(d)), []);
    }
    assert s1 == s.(task := Some(Task(title, d, [], subs)));
    var s2 := Run(s1, [CriteriaHeadingLine]);
    assert s2 == s1;
    RunItems(s2, cs);
    assert [] + cs == cs;
    var s3 := Run(s2, ItemKinds(cs));
    assert Run(s3, [Blank]) == s3;
    RunAppend(s, descK, [CriteriaHeadingLine]);
    RunAppend(s, descK + [CriteriaHeadingLine], ItemKinds(cs));
    RunAppend(s, descK + [CriteriaHeadingLine] + ItemKinds(cs), [Blank]);
  }

  /** The subtasks filed or still open in a state, in the order they will be output. */
  function Pending(s: State): seq<Subtask>
    requires s.task.Some?
  {
    s.task.value.subtasks + (if s.subtask.Some? then [s.subtask.value] else [])
  }

  /** One rendered subtask block files the open subtask and leaves the rendered one open. */
  lemma RunSubtaskBlock(s: State, h: SubtaskHeader, st: Subtask)
    requires s.task.Some? && h.title == st.title
    ensures Run(s, [SubtaskLine(h)] + BodyKinds(st.description, st.criteria))
      == s.(task := Some(Flush(s.task.value, s.subtask)), subtask := Some(st))
  {
    var s1 := StepKind(s, SubtaskLine(h));
    RunBodyIntoSubtask(s1, st.description, st.criteria);
    assert [] + st.criteria == st.criteria;
    RunAppend(s, [SubtaskLine(h)], BodyKinds(st.description, st.criteria));
  }

  /** What a run of subtask blocks keeps from the state it starts in. */
  predicate SameOpenTask(r: State, s: State)
    requires s.task.Some?
  {
    && r.done == s.done && r.counter == s.counter
    && r.task.Some?
    && r.task.value.title == s.task.value.title
    && r.task.value.description == s.task.value.description
    && r.task.value.criteria == s.task.value.criteria
  }

  lemma {:induction false} RunSubtaskBlocks(s: State, n: nat, subs: seq<Subtask>, m: nat)
    requires s.task.Some?
    ensures var r := Run(s, SubtaskBlockKinds(n, subs, m));
      && SameOpenTask(r, s)
      && Pending(r) == Pending(s) + subs
      && (subs == [] ==> r == s)
      && (subs != [] ==> r.subtask.Some?)
    decreases |subs|
  {
    if subs == [] {
      assert SubtaskBlockKinds(n, subs, m) == [];
    } else {
      var st := subs[0];
      var block := [SubtaskLine(SubtaskHeader(NatToString(n), NatToString(m), st.title))] + BodyKinds(st.description, st.criteria);
      RunSubtaskBlock(s, SubtaskHeader(NatToString(n), NatToString(m), st.title), st);
      var s2 := Run(s, block);
      assert Pending(s2) == Pending(s) + [st];
      RunSubtaskBlocks(s2, n, subs[1..], m + 1);
      RunAppend(s, block, SubtaskBlockKinds(n, subs[1..], m + 1));
      assert Pending(s) + [st] + subs[1..] == Pending(s) + subs;
    }
  }

  /** Parsing one rendered task from a state with no open subtask closes the open task and
      leaves this one open, completely filled in once the final flush has run. */
  lemma RunTaskBlock(s: State, n: nat, t: Task)
    requires s.subtask.None?
    ensures t.subtasks == [] ==> Run(s, TaskBlockKinds(n, t)) == State(s.done + Closed(s.task), Some(t), None, n)
    ensures t.subtasks != [] ==>
      Run(s, TaskBlockKinds(n, t)) ==
        State(s.done + Closed(s.task), Some(t.(subtasks := t.subtasks[..|t.subtasks| - 1])),
          Some(t.subtasks[|t.subtasks| - 1]), n)
    ensures Finish(Run(s, TaskBlockKinds(n, t))) == s.done + Closed(s.task) + [t]
  {
    var head := TaskLine(TaskHeader(n, t.title));
    var s1 := StepKind(s, head);
    assert s1 == State(s.done + Closed(s.task), Some(Task(t.title, "", [], [])), None, n);
    RunBodyIntoTask(s1, t.title, t.description, t.criteria, []);
    var s2 := Run(s1, BodyKinds(t.description, t.criteria));
    RunSubtaskBlocks(s2, n, t.subtasks, 1);
    var s3 := Run(s2, SubtaskBlockKinds(n, t.subtasks, 1));
    RunAppend(s, [head], BodyKinds(t.description, t.criteria));
    RunAppend(s, [head] + BodyKinds(t.description, t.criteria), SubtaskBlockKinds(n, t.subtasks, 1));
    assert Run(s, TaskBlockKinds(n, t)) == s3;
    if t.subtasks == [] {
      assert s2 == State(s.done + Closed(s.task), Some(t), None, n);
    } else {
      assert Flush(s3.task.value, s3.subtask).subtasks == Pending(s3) == t.subtasks;
      assert Flush(s3.task.value, s3.subtask) == t;
      assert s3.task.value.subtasks == t.subtasks[..|t.subtasks| - 1];
    }
  }

  function RenderKinds(ts: seq<Task>, n: nat): seq<LineKind>
    decreases |ts|
  {
    if ts == [] then [] else TaskBlockKinds(n, ts[0]) + RenderKinds(ts[1..], n + 1)
  }

  lemma {:induction false} RenderLinesKinds(ts: seq<Task>, n: nat)
    requires forall i :: 0 <= i < |ts| ==> Renderable(ts[i])
    ensures Kinds(RenderLines(ts, n)) == RenderKinds(ts, n)
    decreases |ts|
  {
    if ts != [] {
      TaskBlockKindsOf(n, ts[0]);
      RenderLinesKinds(ts[1..], n + 1);
      KindsAppend(TaskBlock(n, ts[0]), RenderLines(ts[1..], n + 1));
    }
  }

  lemma {:induction false} RunRendered(s: State, ts: seq<Task>, n: nat)
    requires s.subtask.None?
    requires OnlyLastHasSubtasks(ts)
    ensures Finish(Run(s, RenderKinds(ts, n))) == s.done + Closed(s.task) + ts
    decreases |ts|
  {
    if ts == [] {
      assert RenderKinds(ts, n) == [];
    } else if |ts| == 1 {
      RunTaskBlock(s, n, ts[0]);
      assert ts[1..] == [] && ts == [ts[0]];
      assert RenderKinds(ts, n) == TaskBlockKinds(n, ts[0]) + [] == TaskBlockKinds(n, ts[0]);
    } else {
      RunTaskBlock(s, n, ts[0]);
      var s1 := Run(s, TaskBlockKinds(n, ts[0]));
      RunRendered(s1, ts[1..], n + 1);
      RunAppend(s, TaskBlockKinds(n, ts[0]), RenderKinds(ts[1..], n + 1));
      assert s.done + Closed(s.task) + [ts[0]] + ts[1..] == s.done + Closed(s.task) + ts;
    }
  }

  /** Lines of a rendering never contain a line break of their own. */
  lemma {:induction false} RenderedLinesUnbroken(ts: seq<Task>, n: nat)
    requires forall i :: 0 <= i < |ts| ==> Renderable(ts[i])
    ensures forall i :: 0 <= i < |RenderLines(ts, n)| ==> '\n' !in RenderLines(ts, n)[i]
    decreases |ts|
  {
    if ts != [] {
      RenderedLinesUnbroken(ts[1..], n + 1);
      TaskBlockUnbroken(n, ts[0]);
    }
  }

  lemma TaskBlockUnbroken(n: nat, t: Task)
    requires Renderable(t)
    ensures forall i :: 0 <= i < |TaskBlock(n, t)| ==> '\n' !in TaskBlock(n, t)[i]
  {
    DigitsUnbroken(NatToString(n));
    BodyUnbroken(t.description, t.criteria);
    SubtaskBlocksUnbroken(n, t.subtasks, 1);
  }

  lemma DigitsUnbroken(ds: string)
    requires AllDigits(ds)
    ensures '\n' !in ds
  {
    forall i | 0 <= i < |ds|
      ensures ds[i] != '\n'
    {
      assert IsDigit(ds[i]);
    }
  }

  lemma BodyUnbroken(d: string, cs: seq<string>)
    requires d == [] || Carriable(d)
    requires forall i :: 0 <= i < |cs| ==> ItemCarriable(cs[i])
    ensures forall i :: 0 <= i < |BodyLines(d, cs)| ==> '\n' !in BodyLines(d, cs)[i]
  {
    var b := BodyLines(d, cs);
    var k := |DescriptionLines(d)|;
    forall i | 0 <= i < |b|
      ensures '\n' !in b[i]
    {
      if k <= i - 1 < k + |cs| {
        assert b[i] == ItemPrefix + cs[i - 1 - k];
      }
    }
  }

  lemma {:induction false} SubtaskBlocksUnbroken(n: nat, subs: seq<Subtask>, m: nat)
    requires forall j :: 0 <= j < |subs| ==>
      FieldsCarriable(subs[j].title, subs[j].description, subs[j].criteria)
    ensures forall i :: 0 <= i < |SubtaskBlocks(n, subs, m)| ==> '\n' !in SubtaskBlocks(n, subs, m)[i]
    decreases |subs|
  {
    if subs != [] {
      DigitsUnbroken(NatToString(n));
      DigitsUnbroken(NatToString(m));
      BodyUnbroken(subs[0].description, subs[0].criteria);
      SubtaskBlocksUnbroken(n, subs[1..], m + 1);
    }
  }

  /** Parsing a rendering is running the parser over the rendering's kinds. */
  lemma ParseRendered(ts: seq<Task>)
    requires forall i :: 0 <= i < |ts| ==> Renderable(ts[i])
    ensures ParseTasks(Render(ts)) == Finish(Run(Start, RenderKinds(ts, 1)))
  {
    var lines := RenderLines(ts, 1);
    if ts == [] {
      assert Split(Render(ts), '\n') == [""];
      assert Kinds([""]) == [Blank];
      assert RenderKinds(ts, 1) == [];
    } else {
      assert |lines| >= 1;
      RenderedLinesUnbroken(ts, 1);
      SplitJoin(lines, '\n');
      RenderLinesKinds(ts, 1);
    }
  }

  /** The round trip the output grammar promises holds exactly for the layouts the code files
      correctly: every title, description and criterion comes back, in order, provided no task
      except the last has subtasks (`StaleSubtaskAbsorbsNextTask` shows what happens otherwise). */
  lemma RoundTrip(ts: seq<Task>)
    requires forall i :: 0 <= i < |ts| ==> Renderable(ts[i])
    requires OnlyLastHasSubtasks(ts)
    ensures ParseTasks(Render(ts)) == ts
  {
    ParseRendered(ts);
    RunRendered(Start, ts, 1);
  }

  // ---------------------------------------------------------------------------
  // The stale subtask

  /** The subtask left open by the first task, carrying what the second task's body wrote. */
  function Merged(last: Subtask, t2: Task): Subtask {
    Subtask(last.title, if t2.description == [] then last.description else t2.description, last.criteria + t2.criteria)
  }

  /** The state after a task with subtasks: its last subtask is still open. */
  lemma RunStale(t1: Task, t2: Task)
    requires t1.subtasks != []
    ensures var last := t1.subtasks[|t1.subtasks| - 1];
      Finish(Run(Start, TaskBlockKinds(1, t1) + TaskBlockKinds(2, t2))) == [
        t1.(subtasks := t1.subtasks[..|t1.subtasks| - 1]),
        Task(t2.title, "", [], [Merged(last, t2)] + t2.subtasks)]
  {
    var last := t1.subtasks[|t1.subtasks| - 1];
    var k1, k2 := TaskBlockKinds(1, t1), TaskBlockKinds(2, t2);
    RunAppend(Start, k1, k2);
    RunTaskBlock(Start, 1, t1);
    var s1 := Run(Start, k1);
    var head := TaskLine(TaskHeader(2, t2.title));
    assert s1 == State([], Some(t1.(subtasks := t1.subtasks[..|t1.subtasks| - 1])), Some(last), 1);
    var s2 := StepKind(s1, head);
    assert s2 == State([t1.(subtasks := t1.subtasks[..|t1.subtasks| - 1])], Some(Task(t2.title, "", [], [])), Some(last), 2);
    RunBodyIntoSubtask(s2, t2.description, t2.criteria);
    var body := BodyKinds(t2.description, t2.criteria);
    var subs := SubtaskBlockKinds(2, t2.subtasks, 1);
    assert k2 == [head] + body + subs;
    RunAppend(s1, [head], body);
    RunAppend(s1, [head] + body, subs);
    assert Run(s1, [head]) == s2;
    var s3 := s2.(subtask := Some(Merged(last, t2)));
    assert Run(s1, [head] + body) == s3;
    RunSubtaskBlocks(s3, 2, t2.subtasks, 1);
    var s4 := Run(s3, subs);
    assert Run(Start, k1 + k2) == s4;
    assert Pending(s3) == [Merged(last, t2)];
    assert Flush(s4.task.value, s4.subtask) == Task(t2.title, "", [], [Merged(last, t2)] + t2.subtasks);
  }

  /** Rendering two tasks of which the first has subtasks and parsing the text back: the first
      task's last subtask is still open when the second task's header arrives, so it takes over
      that task's description and criteria and is filed under the second task, ahead of the
      second task's own subtasks. */
  lemma StaleSubtaskAbsorbsNextTask(t1: Task, t2: Task)
    requires Renderable(t1) && Renderable(t2)
    requires t1.subtasks != []
    ensures var last := t1.subtasks[|t1.subtasks| - 1];
      ParseTasks(Render([t1, t2])) == [
        t1.(subtasks := t1.subtasks[..|t1.subtasks| - 1]),
        Task(t2.title, "", [], [Merged(last, t2)] + t2.subtasks)]
  {
    var ts := [t1, t2];
    assert forall i :: 0 <= i < |ts| ==> Renderable(ts[i]);
    ParseRendered(ts);
    RenderKindsPair(t1, t2, 1);
    RunStale(t1, t2);
  }

  lemma RenderKindsPair(t1: Task, t2: Task, n: nat)
    ensures RenderKinds([t1, t2], n) == TaskBlockKinds(n, t1) + TaskBlockKinds(n + 1, t2)
  {
    assert [t1, t2][1..] == [t2] && [t2][1..] == [];
    assert RenderKinds([t2], n + 1) == TaskBlockKinds(n + 1, t2) + [];
    assert TaskBlockKinds(n + 1, t2) + [] == TaskBlockKinds(n + 1, t2);
  }

  // ---------------------------------------------------------------------------
  // Concrete vectors

  /** One task with one subtask, each with a description and one criterion. */
  lemma OneTaskOneSubtask()
    ensures ParseTasks(Render([Task("A", "d1", ["c1"], [Subtask("B", "d2", ["c2"])])]))
      == [Task("A", "d1", ["c1"], [Subtask("B", "d2", ["c2"])])]
  {
    var ts := [Task("A", "d1", ["c1"], [Subtask("B", "d2", ["c2"])])];
    assert Renderable(ts[0]);
    RoundTrip(ts);
  }

  /** A task header does not close the open subtask: subtask B, opened under task A, takes the
      description and criterion written for task C and is filed under C, while A ends up with
      no subtasks. */
  lemma StaleSubtaskExample()
    ensures ParseTasks(Render([Task("A", "", [], [Subtask("B", "", [])]), Task("C", "d", ["c"], [])]))
      == [Task("A", "", [], []), Task("C", "", [], [Subtask("B", "d", ["c"])])]
  {
    var t1, t2 := Task("A", "", [], [Subtask("B", "", [])]), Task("C", "d", ["c"], []);
    assert Renderable(t1) && Renderable(t2);
    StaleSubtaskAbsorbsNextTask(t1, t2);
    assert t1.subtasks[..0] == [] && [] + ["c"] == ["c"];
    assert [Merged(Subtask("B", "", []), t2)] + [] == [Subtask("B", "d", ["c"])];
  }

  /** `ParseLines` is the run over the kinds followed by the final flush. */
  lemma ParseOfKinds(lines: seq<string>, ks: seq<LineKind>)
    requires Kinds(lines) == ks
    ensures ParseLines(lines) == Finish(Run(Start, ks))
  {
  }

  lemma KindsPair(l0: string, l1: string, k0: LineKind, k1: LineKind)
    requires Classify(l0) == k0 && Classify(l1) == k1
    ensures Kinds([l0, l1]) == [k0, k1] && Kinds([l0]) == [k0]
  {
    assert [l0, l1][1..] == [l1] && [l1][1..] == [] && [l0][1..] == [];
    assert Kinds([l1]) == [Classify(l1)] + Kinds([]);
    assert Kinds([l0]) == [Classify(l0)] + Kinds([]);
    assert Kinds([l0, l1]) == [Classify(l0)] + Kinds([l1]);
  }

  /** A task header followed by a subtask header whose numeral names another task: the subtask
      is filed under the open task, and the counter the logged ordinal is rebuilt from is the
      task's own number. */
  lemma MisnumberedLines(n: string, major: string, minor: string, x: string, y: string)
    requires n != [] && AllDigits(n) && major != [] && AllDigits(major) && minor != [] && AllDigits(minor)
    requires Carriable(x) && Carriable(y)
    ensures ParseLines([TaskHeaderLine(n, x), SubtaskHeaderLine(major, minor, y)]) == [Task(x, "", [], [Subtask(y, "", [])])]
    ensures Run(Start, Kinds([TaskHeaderLine(n, x)])).counter == DigitsValue(n)
  {
    var l0, l1 := TaskHeaderLine(n, x), SubtaskHeaderLine(major, minor, y);
    var k0, k1 := TaskLine(TaskHeader(DigitsValue(n), x)), SubtaskLine(SubtaskHeader(major, minor, y));
    TaskHeaderClassified(n, x);
    SubtaskHeaderClassified(major, minor, y);
    KindsPair(l0, l1, k0, k1);
    ParseOfKinds([l0, l1], [k0, k1]);
    TaskThenSubtaskRun(TaskHeader(DigitsValue(n), x), SubtaskHeader(major, minor, y));
  }

  lemma TaskThenSubtaskRun(h: TaskHeader, sh: SubtaskHeader)
    ensures Finish(Run(Start, [TaskLine(h), SubtaskLine(sh)])) == [Task(h.title, "", [], [Subtask(sh.title, "", [])])]
    ensures Run(Start, [TaskLine(h)]).counter == h.number
  {
    var k0, k1 := TaskLine(h), SubtaskLine(sh);
    var s1 := StepKind(Start, k0);
    assert [k0, k1][1..] == [k1] && [k1][1..] == [] && [k0][1..] == [];
    var s2 := StepKind(s1, k1);
    assert Run(Start, [k0, k1]) == Run(s1, [k1]) == Run(s2, []);
    assert Run(Start, [k0]) == Run(s1, []);
    assert s2 == State([], Some(Task(h.title, "", [], [])), Some(Subtask(sh.title, "", [])), h.number);
    assert [] + [Subtask(sh.title, "", [])] == [Subtask(sh.title, "", [])];
  }

  /** The layout of the example output shown to the model in the prompt: task 1 with subtasks
      1.1 and 1.2, then task 2 with subtask 2.1. Parsed back, task 1 keeps only subtask 1.1;
      subtask 1.2 takes task 2's description and criteria and is filed under task 2, ahead of
      2.1; task 2 itself ends up with no description and no criteria. */
  lemma SampleLayoutMisfiled(dashboard: Task, users: Subtask, referrals: Subtask, venues: Task, venueMetrics: Subtask)
    requires Renderable(dashboard) && Renderable(venues)
    requires dashboard.subtasks == [users, referrals] && venues.subtasks == [venueMetrics]
    requires venues.description != []
    ensures ParseTasks(Render([dashboard, venues])) == [
      dashboard.(subtasks := [users]),
      Task(venues.title, "", [], [
        Subtask(referrals.title, venues.description, referrals.criteria + venues.criteria),
        venueMetrics])]
  {
    StaleSubtaskAbsorbsNextTask(dashboard, venues);
    assert dashboard.subtasks[|dashboard.subtasks| - 1] == referrals;
    assert dashboard.subtasks[..|dashboard.subtasks| - 1] == [users];
    var merged := Merged(referrals, venues);
    assert merged == Subtask(referrals.title, venues.description, referrals.criteria + venues.criteria);
    assert [merged] + venues.subtasks == [merged, venueMetrics];
  }
}
