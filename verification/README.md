# Requirements-to-Jira-to-GitHub pipeline: a Dafny model of its core

The system turns a requirements document into Jira tickets, a GitHub repository with one
feature branch per task, and generated test cases. It runs in three stages:

- **Stage 1 (`main_task1.py`)** asks a language model to list tasks and subtasks in a fixed
  text grammar and parses that answer (`parse_tasks_from_file`). It creates one Jira issue per
  task and subtask (`create_jira_tickets`) and writes the flat registry `ticket_keys.json`.
  Before that, the connection check (`validate_jira_connection`) settles which issue-type names
  to use.
- **Stage 2 (`main_task2.py`)** reads the registry back and validates it (`read_ticket_keys`).
  It rebuilds the task/subtask map, renders the main README and creates one
  `feature/<key>-<slug>` branch per task, each with its own README.
- **Stage 3 (`main_task3.py`)** rebuilds the same map and produces one test-case document per
  task, from the model's reply or from a fallback template. It posts each document as a Jira
  comment unless it carries the failure phrase, and commits it to the task's branch.

The model covers the deterministic logic between the language model and the Jira/GitHub
calls. Each piece is one module:

- `Parser` holds the stage-1 parser as a fold over classified lines, following the code exactly.
  This includes its stale-subtask behaviour: a task header closes the open task but not the
  open subtask.
- `ParserLaws` holds what the parser does to the answer grammar: conservation, ordering, noise
  lines and the round trip.
- `ParserFixed` is the corrected parser.
- `Patterns` holds the two `re.sub` cleaners: `(Phase N)` markers and `Subtask n.m:` labels.
- `IssueTypes` holds the issue-type fallback.
- `Registry` holds validation of the registry.
- `Tickets` holds the creation loop, with `jira.create_issue` as an oracle.
- `Hierarchy` holds the rebuilding of the map as an ordered association list. Python dict order
  drives every later output.
- `Pipeline` holds the stage-1-to-stage-2 composition.
- `Branches`, `Readme` and `TestCases` hold the renderers.
- `Text` models the Python string built-ins the code relies on.

`read_ticket_keys` is identical in `main_task2.py:26-38` and `main_task3.py:54-67`. The
rebuilding loop is copied three times, at `main_task2.py:144-161`, `main_task2.py:223-240` and
`main_task3.py:296-313`. Each is modelled once.

Where the written specification of the system and the code disagree, the model follows the
code. There are two such places:

- The specification says a task header closes the open subtask and that the answer grammar
  round-trips; the code does neither.
- The specification expects the issue-type fallback to stay compatible with the later stages.
  Those stages only recognise the exact names `Task` and `Subtask`.

Both are under "Findings".

## Model

| member | source | states |
|---|---|---|
| Text.Strip | main_task1.py:247 | `strip()` yields the empty string exactly for an all-whitespace line, otherwise a string without whitespace at either end |
| Text.StripExact | main_task1.py:247 | `strip()` of whitespace + `m` + whitespace is `m` for any trimmed `m` |
| Text.Split | main_task1.py:238 | `split('\n')` gives at least one piece, no piece holds the separator, and joining the pieces with it restores the text |
| Text.SplitJoin | main_task1.py:238 | splitting a join of separator-free pieces gives the pieces back (the other half of the round trip) |
| Text.SplitUnlines | main_task1.py:238 | text written as lines each ending in `\n` splits back into those lines plus one empty piece |
| Text.TakeLine | main_task1.py:240-242 | what a trailing `(.+)` captures holds no line break, is a prefix of the input, and is all of it when the input has no line break |
| Text.Take | main_task1.py:335 | `s[:n]` is a prefix of `s` of length exactly min(len(s), n), and is `s` itself exactly when `s` fits |
| Text.Bullets | main_task1.py:332 | one `- item` line per item, in order |
| Text.JoinUnlines | main_task2.py:178 | `"\n".join(lines) + "\n"` equals writing each line followed by a line break |
| Text.UnlinesFlatten | main_task2.py:171-194 | appending block after block with `+=` gives the same text as writing all lines at once |
| Text.ContainsAt | main_task3.py:191 | `needle in s` holds exactly when the needle occurs at some position |
| Text.DigitRun | main_task1.py:240 | a greedy `\d+` stops at the first non-digit and consumes only digits |
| Text.NatToString | main_task1.py:271 | `str()` of a number is a non-empty digit string with no leading zero (except `0` itself) that `int()` reads back as the number |
| Text.AsciiLower | main_task3.py:105 | `lower()` keeps the length, lowers each ASCII capital and keeps every other character |
| Parser.GroupRest | main_task1.py:240-242 | a closing `(.+)` captures a non-empty, line-break-free prefix, and the whole remainder when it has no line break |
| Parser.MatchTask | main_task1.py:240 | a `Task (\d+): (.+)` match yields the `int()` of a digit run written after `Task ` and a non-empty title following `: ` |
| Parser.MatchSubtask | main_task1.py:241 | a `Subtask (\d+\.\d+): (.+)` match yields two non-empty digit runs and a non-empty title, on a line starting with `Subtask ` |
| Parser.MatchDescription | main_task1.py:242 | a `Description: (.+)` match yields the non-empty text right after the prefix |
| Parser.Classify | main_task1.py:246-306 | recognisers run in the code's order on the stripped line; an item is trimmed; a subtask line can match no later recogniser, so ignoring it without an open task equals falling through |
| Parser.SubtaskLineMatchesNothingLater | main_task1.py:268-299 | a line starting with `Subtask ` matches neither `Description:`, `Acceptance Criteria:` nor `- ` |
| Parser.ItemTrimmed | main_task1.py:299-300 | a `- ` line on a stripped line always leaves a non-empty trimmed criterion |
| Parser.RepairedOrdinal | main_task1.py:270-274 | the logged ordinal is always `counter.minor`, and the declared one is kept exactly when its major part is the counter |
| Parser.DottedPrefix | main_task1.py:271-272 | for digit strings, `major.minor` starts with `c.` only when `major` is `c` |
| Parser.Flush | main_task1.py:275-276 | filing a subtask appends it at the end of the task's subtasks and changes nothing else |
| Parser.StepKind | main_task1.py:251-306 | blank, heading and unmatched lines change nothing; a task header closes the task but leaves the subtask open; a subtask header needs an open task; descriptions and items go to the innermost open entity |
| Parser.KindAt | main_task1.py:246-247 | each line is classified on its own, independently of the state |
| Parser.Significant | main_task1.py:246-306 | the lines kept are never ones every state ignores |
| Parser.SignificantKeeps | main_task1.py:246-306 | every line some state does not ignore is kept, and only lines of the input are kept |
| Parser.ParseLines | main_task1.py:235-316 | one task per task-header line in order, and one subtask per honoured subtask-header line in order (the last one via the final flush) |
| Parser.ParseTasks | main_task1.py:230-320 | the whole parse of the file text, split at `\n`, yields one task per task-header line |
| Parser.StepTaskTitles | main_task1.py:253-265 | only a task header adds a task, and it adds its own title |
| Parser.RunTaskTitles | main_task1.py:246-306 | the tasks finished or open after a run are the earlier ones plus one per task header, in order |
| Parser.FinishTaskTitles | main_task1.py:311-312 | the final flush outputs every task finished or open |
| Parser.StepSubtaskTitles | main_task1.py:268-283 | a subtask header adds exactly one subtask exactly when a task is open |
| Parser.RunSubtaskTitles | main_task1.py:268-283 | a run keeps the state well formed and adds one subtask per honoured subtask header, in order |
| Parser.FinishSubtaskTitles | main_task1.py:309-312 | the final flush files the last open subtask, losing none |
| Parser.IgnorableLinesIrrelevant | main_task1.py:246-306 | blank, `Acceptance Criteria:` and unmatched lines can be removed anywhere without changing the run |
| Parser.ParseIgnoresNoise | main_task1.py:246-249 | the parse result ignores those lines altogether |
| ParserLaws.NoHeaderMatch | main_task1.py:252-268 | a line starting with neither `T` nor `S` matches neither header pattern |
| ParserLaws.MatchTaskOf | main_task1.py:240 | `Task <digits>: <title>` matches with number `int(digits)` and that title |
| ParserLaws.TaskHeaderClassified | main_task1.py:252-254 | a task header line is classified as that header |
| ParserLaws.MatchSubtaskOf | main_task1.py:241 | `Subtask a.b: <title>` matches the subtask pattern with those parts and not the task pattern |
| ParserLaws.SubtaskHeaderClassified | main_task1.py:268 | a subtask header line is classified as that header |
| ParserLaws.MatchDescriptionOf | main_task1.py:242 | `Description: d` yields `d` |
| ParserLaws.DescriptionClassified | main_task1.py:286 | a description line is classified as that description |
| ParserLaws.FallThroughClassified | main_task1.py:296-306 | a line no header or description recogniser takes is a heading, an item or ignored, by its prefix alone |
| ParserLaws.HeadingClassified | main_task1.py:297-298 | `Acceptance Criteria:` is skipped |
| ParserLaws.ItemClassified | main_task1.py:299-300 | `- c` with a trimmed `c` yields the item `c` |
| ParserLaws.BlankClassified | main_task1.py:247-249 | an empty line is blank |
| ParserLaws.SubtaskNumberIrrelevant | main_task1.py:268-283 | two subtask headers differing only in `a.b` have the same effect: the numeral never affects placement or data |
| ParserLaws.SubtaskKindTitleOnly | main_task1.py:277-281 | a subtask header's effect depends on its title alone |
| ParserLaws.TaskNumberOnlySetsCounter | main_task1.py:254-263 | a task's number only sets the counter; everything else is the same for any number |
| ParserLaws.RunItems | main_task1.py:299-306 | items are appended in order to the open subtask, or else to the open task |
| ParserLaws.RunBodyIntoSubtask | main_task1.py:286-302 | a body read while a subtask is open lands in that subtask: the description replaced, the criteria appended |
| ParserLaws.RunBodyIntoTask | main_task1.py:291-305 | a body read right after a task header with no subtask open fills in that task |
| ParserLaws.RunSubtaskBlock | main_task1.py:268-283 | a subtask block files the open subtask under the open task and leaves the new one open with its body |
| ParserLaws.RunSubtaskBlocks | main_task1.py:268-283 | a run of subtask blocks files all but the last and keeps the same open task |
| ParserLaws.RunTaskBlock | main_task1.py:253-265 | one task block closes the previous task, leaves its last subtask open, and comes back whole after the final flush |
| ParserLaws.RunRendered | main_task1.py:246-312 | when only the last task has subtasks, a rendering runs back to exactly the rendered tasks |
| ParserLaws.ParseRendered | main_task1.py:230-246 | parsing a rendering is running the loop over the rendering's line kinds |
| ParserLaws.RoundTrip | main_task1.py:230-320 | the answer grammar round-trips (titles, descriptions, criteria, subtasks) when no task except the last has subtasks |
| ParserLaws.StaleSubtaskAbsorbsNextTask | main_task1.py:253-265 | with subtasks under the first task, its last subtask takes the second task's description and criteria and is filed under the second task |
| ParserLaws.OneTaskOneSubtask | main_task1.py:156-171 | one task with one subtask round-trips |
| ParserLaws.StaleSubtaskExample | main_task1.py:253-265 | subtask B of task A ends up under task C with C's description and criterion; A and C lose theirs |
| ParserLaws.MisnumberedLines | main_task1.py:270-274 | a subtask numbered for another task is filed under the open task, and the counter for the logged ordinal is that task's number |
| ParserLaws.SampleLayoutMisfiled | main_task1.py:156-181 | the prompt's example layout parses back with subtask 1.2 moved under task 2, carrying task 2's description and criteria |
| ParserFixed.StepKindFixed | main_task1.py:253-265 | the corrected task header also closes the open subtask; every other line acts as in the code |
| ParserFixed.RunFixedAgrees | main_task1.py:268-306 | between task headers the corrected parser and the code agree |
| ParserFixed.RunTaskBlockFixed | main_task1.py:253-265 | the corrected parser reads one task block back whole, whatever was open before |
| ParserFixed.RunRenderedFixed | main_task1.py:246-312 | the corrected parser reads any rendering back to exactly the rendered tasks |
| ParserFixed.RoundTripFixed | main_task1.py:230-320 | the answer grammar round-trips for every list of renderable tasks |
| ParserFixed.FixedAgreesOnCorrectLayouts | main_task1.py:230-320 | where the code already parses correctly, the correction changes nothing |
| ParserFixed.StaleSubtaskExampleFixed | main_task1.py:253-265 | the stale-subtask example parses correctly under the correction |
| Patterns.SpaceRun | main_task1.py:215 | a greedy `\s*` consumes only whitespace and stops at the first non-whitespace |
| Patterns.RemoveMatches | main_task1.py:215 | a left-to-right `re.sub(p, '', s)` never lengthens the text |
| Patterns.RemoveMatchesUnchanged | main_task1.py:215 | the deletion changes the text exactly when the pattern occurs somewhere in it |
| Patterns.KeepUnmatched | main_task1.py:215 | a character where no match starts is kept |
| Patterns.SkipMatch | main_task1.py:215 | after deleting a match, the scan resumes right after it |
| Patterns.MarkerAt | main_task1.py:215 | where a whole `(Phase N)` marker starts, the match covers exactly the marker |
| Patterns.WholeMarker | main_task1.py:215 | a whole marker is not match-free |
| Patterns.PhaseFreeWithoutParen | main_task1.py:215 | text without `(` contains no marker |
| Patterns.CleanReply | main_task1.py:215 | the cleaned reply is empty or trimmed, and no longer than the reply |
| Patterns.CleanReplyWithoutMarkers | main_task1.py:215 | a reply without markers is only stripped |
| Patterns.PhaseMarkerSurvivesOnePass | main_task1.py:215 | one pass over `(` + a marker nested in another deletes the inner one and leaves a whole new marker behind |
| Patterns.InnerMarkerDeleted | main_task1.py:215 | one pass leaves `(` + the tail of the outer marker |
| Patterns.SubtaskSummary | main_task1.py:358 | the subtask summary is empty or trimmed, and no longer than the title |
| Patterns.SubtaskSummaryWithoutLabels | main_task1.py:358 | a title without `Subtask n.m:` labels is only stripped, and a trimmed one is kept as it is |
| IssueTypes.FirstAvailable | main_task1.py:63 | `next(...)` returns an available candidate, and `None` exactly when no candidate is available |
| IssueTypes.FirstAvailableIsFirst | main_task1.py:62-63 | the chosen candidate is the earliest available one |
| IssueTypes.ResolveTaskType | main_task1.py:59-70 | the configured task type is kept if available; otherwise Task if offered, else Story, else Issue; with none of them there is no task type |
| IssueTypes.ResolveSubtaskType | main_task1.py:71-82 | the configured subtask type is kept if available; otherwise Sub-task if offered, else Subtask; with neither, the configured name stays |
| IssueTypes.Resolve | main_task1.py:59-83 | the check fails exactly when neither the configured task type nor Task, Story or Issue is available; otherwise the result is exactly the pair of the resolved task type and the resolved subtask type |
| IssueTypes.StoryProject | main_task1.py:59-82 | a project offering Story and Sub-task moves both defaults there |
| Registry.Validated | main_task2.py:26-38 | the result is all complete: either the loaded list unchanged, when every entry has key, summary and type, or empty |
| Registry.ReadTicketKeys | main_task3.py:54-67 | the loop as written returns what `Validated` does, and `[]` when any entry lacks a required field |
| Registry.ValidatedIdempotent | main_task2.py:30-34 | reading an accepted registry again accepts it unchanged |
| Registry.OneBadEntryEmptiesAll | main_task2.py:30-32 | one incomplete entry anywhere empties the whole result |
| Tickets.IssueDescriptionLines | main_task1.py:332 | the issue body splits into the description line, a blank, the criteria heading and one bullet per criterion |
| Tickets.IssueDescriptionJoined | main_task1.py:332 | the issue body is those lines joined with `\n` |
| Tickets.CleanedAll | main_task1.py:357-358 | every subtask title goes through the cleaner, one for one |
| Tickets.TaskFieldsShape | main_task1.py:333-339 | a task issue has the project, the task type, no parent, the label, and the title cut to exactly its first 255 characters |
| Tickets.SubtaskFieldsShape | main_task1.py:358-367 | a subtask issue has the subtask type and its task as parent, and a summary that is the cleaned title cut to exactly its first 255 characters |
| Tickets.TaskEntry | main_task1.py:345-351 | a task entry is complete, has no parent, carries the task type, and records the full title |
| Tickets.SubtaskEntry | main_task1.py:372-379 | a subtask entry is complete, names its task as parent, carries the subtask type, and records the full cleaned title |
| Tickets.CreateSubtasks | main_task1.py:357-380 | the subtask loop records one entry per successful call, stops at the first failure, and spends one call per entry plus the failed one |
| Tickets.CreateSubtasksEntry | main_task1.py:369-379 | entry `i` records subtask `i` under the key its call returned |
| Tickets.CreateSubtasksStop | main_task1.py:388-391 | the loop ends early only at a call that failed; earlier entries are kept |
| Tickets.SubtaskEntriesFiled | main_task1.py:372-379 | every subtask entry is complete, typed as a subtask and filed under the task |
| Tickets.CreateTask | main_task1.py:330-391 | a failed task call records nothing; a successful one records the task and then its subtasks' entries under the returned key |
| Tickets.CreateAll | main_task1.py:323-395 | every task costs at least one call |
| Tickets.GroupOfTask | main_task1.py:345-379 | a task entry followed by entries naming it as parent forms one group |
| Tickets.CreateTaskRegistry | main_task1.py:330-391 | one task's entries are complete, typed and grouped, starting with the task |
| Tickets.CreateAllRegistry | main_task1.py:323-395 | every entry is complete and typed for its kind, each subtask sits after its task, and the registry passes validation unchanged |
| Hierarchy.Lookup | main_task2.py:156 | `key in tasks` / `tasks[key]` finds a value exactly when the key is present |
| Hierarchy.Put | main_task2.py:148 | assignment replaces in place or appends a new key at the end, keeps keys distinct, and leaves other entries alone |
| Hierarchy.AddTicketTask | main_task2.py:147-153 | a `Task` entry inserts or replaces its key with no subtasks, in the key's first position |
| Hierarchy.AddTicketIgnored | main_task2.py:154-156 | an orphan `Subtask` entry or an entry of any other type changes nothing; only a `Task` entry changes the keys |
| Hierarchy.AddTicketFiles | main_task2.py:155-161 | a `Subtask` entry with a present parent is filed under that parent with the defaults for missing fields |
| Hierarchy.AddTicketOthers | main_task2.py:145-161 | entries for other keys are untouched |
| Hierarchy.AddTicketDistinct | main_task2.py:144-161 | the loop keeps top-level keys distinct and subtask keys distinct under each task |
| Hierarchy.FileOne | main_task2.py:154-161 | a subtask entry for the last task is appended to that task's subtasks |
| Hierarchy.FileAll | main_task2.py:154-161 | subtask entries for the last task are filed under it in order, none dropped, reordered or duplicated |
| Hierarchy.Reconstruct | main_task2.py:144-161 | the rebuilt map has distinct keys and distinct subtask keys |
| Hierarchy.ReconstructIsLoop | main_task2.py:223-240 | the fold is the loop run front to back from an empty map |
| Hierarchy.ReconstructKeys | main_task2.py:147-153 | the top-level keys are the `Task` entries' keys, each once, in order of first appearance |
| Hierarchy.ReconstructTraceable | main_task3.py:296-313 | every filed subtask comes from a `Subtask` entry naming that task as parent |
| Hierarchy.SubtaskOrigin | main_task2.py:154-161 | a subtask after one step was either there before under the same task, or is the new entry filed under its parent |
| Hierarchy.ForwardReferenceDropped | main_task3.py:306-313 | a subtask entry before its parent task is lost |
| Hierarchy.RepeatedTaskResets | main_task2.py:147-153 | a repeated task key keeps its place but loses the subtasks collected so far |
| Hierarchy.NoTaskEntriesNoMap | main_task2.py:147-156 | without any `Task` entry nothing is rebuilt |
| Hierarchy.NoSubtaskEntriesNoSubtasks | main_task2.py:154-161 | without a `Subtask` entry that names a parent, no task gets subtasks |
| Hierarchy.ByKind | main_task1.py:345-379 | relabelling by `parent_key` makes an entry a task exactly when it has no parent, and keeps everything else |
| Hierarchy.ReconstructByKind | main_task2.py:144-161 | the by-kind rebuild also keeps keys distinct |
| Hierarchy.ByKindAgrees | main_task2.py:144-161 | on registries already using `Task`/`Subtask`, the by-kind rebuild is the code's rebuild |
| Pipeline.CreateSubtasksAllSucceed | main_task1.py:357-380 | with every call succeeding, the subtask loop records every subtask and spends one call each |
| Pipeline.CreateTaskAllSucceed | main_task1.py:330-386 | with every call succeeding, a task records its group and spends 1 + its subtasks' calls |
| Pipeline.CreateAllAllSucceed | main_task1.py:323-395 | with every call succeeding, stage 1 records exactly the groups of all tasks, in order |
| Pipeline.SubEntriesFiled | main_task1.py:372-379 | a group's subtask entries are all filed under its task with distinct fresh keys |
| Pipeline.AddTaskEntry | main_task2.py:147-153 | a fresh task key is appended to the map with no subtasks |
| Pipeline.AddGroupEntries | main_task2.py:144-161 | a task entry and its subtask entries read back as one new map entry holding every subtask |
| Pipeline.GroupEntries | main_task2.py:144-161 | one task's group adds exactly its expected entry at the end of the map |
| Pipeline.AddAllCreated | main_task2.py:144-161 | a successful stage-1 registry reads back as the expected map |
| Pipeline.TreeEntryShape | main_task2.py:148-161 | a created task's map entry reads back as the task with cleaned subtask titles |
| Pipeline.ShapeOfTree | main_task2.py:144-161 | the expected map, keys forgotten, is the parsed task list with cleaned subtask titles |
| Pipeline.RegistryRebuildsTasks | main_task2.py:144-161 | stage 1 then stage 2 with the default types: every parsed task comes back once, in order, with its own subtasks |
| Pipeline.OtherTaskTypeRebuildsNothing | main_task2.py:147 | with a task type other than `Task`, stages 2 and 3 rebuild nothing |
| Pipeline.OtherSubtaskTypeDropsSubtasks | main_task2.py:154 | with a subtask type other than `Subtask`, every task loses its subtasks |
| Pipeline.StoryProjectRebuildsNothing | main_task1.py:59-82 | a Story/Sub-task project passes the connection check, yet nothing is rebuilt downstream |
| Pipeline.SubTaskProjectDropsSubtasks | main_task1.py:71-82 | a Task/Sub-task project passes the check, yet every task is rebuilt without subtasks |
| Pipeline.GroupByKind | main_task1.py:345-379 | relabelled by kind, a group records the default type names whatever types it was created with |
| Pipeline.CreatedByKind | main_task1.py:323-395 | the same for a whole successful run |
| Pipeline.RegistryRebuildsTasksByKind | main_task2.py:144-161 | with the by-kind rebuild, every parsed task comes back for any resolved issue types |
| Branches.KeepSlugChars | main_task2.py:244 | the character filter never lengthens the text |
| Branches.KeepSlugCharsKeeps | main_task2.py:244 | only characters of `[a-zA-Z0-9\s-]` survive, and the text is unchanged exactly when it holds only those |
| Branches.KeepSlugCharsAppend | main_task2.py:244 | the filter works character by character |
| Branches.Hyphenate | main_task2.py:244 | `.replace(' ', '-')` keeps the length, leaves no space, and keeps every other character |
| Branches.Slug | main_task2.py:244 | the slug is no longer than the summary and holds no space and no capital letter |
| Branches.SlugFixedPoint | main_task2.py:244 | a string is left unchanged exactly when it is made of slug characters |
| Branches.SlugIdempotent | main_task2.py:244 | sanitising a slug again changes nothing |
| Branches.BranchName | main_task2.py:244-245 | the name is the first min(50, length) characters of `feature/<key>-<slug>`, starts with `feature/`, and keeps the key whole when it fits |
| Branches.BranchNames | main_task2.py:243-253 | one branch per rebuilt task, in map order, none for subtasks |
| Branches.Written | main_task2.py:244-292 | what one pass leaves for a task: its branch under `BranchName`, and its branch README exactly when the README write returned |
| Branches.FirstFailure | main_task2.py:243-298 | the first task whose GitHub calls raise: every task before it went through, and it did not |
| Branches.CreateBranches | main_task2.py:221-300 | the single `try` around the loop: tasks before the first failure get their branch and README, a failed README write leaves its branch without one, and no task after the first failure gets anything |
| Branches.CreateBranchesAllSucceed | main_task2.py:243-297 | when every GitHub call returns, every rebuilt task gets the branch `BranchNames` gives and its README |
| Readme.CriteriaBlockRendered | main_task2.py:177-180 | the criteria block is the bullets joined with `\n` plus a final line break, or the placeholder line |
| Readme.MainReadmeSections | main_task2.py:164-194 | the main README is the project header followed by one section per task in map order |
| Readme.MainTaskShape | main_task2.py:171-194 | a task section has the `### key: summary` heading, the description, the criteria, and a `#### Subtasks` part exactly when there are subtasks |
| Readme.MainSubtaskAt | main_task2.py:182-194 | subtask `j` appears under its own `##### key: summary` heading, in map order |
| Readme.MainReadmeTaskAt | main_task2.py:171-176 | task `i`'s section starts below the sections of all earlier tasks, with its heading and description |
| Readme.BranchReadmeShape | main_task2.py:256-275 | the branch README has the `# key: summary` heading, the description, the criteria with placeholder `- None`, and `## Subtasks` exactly when there are subtasks |
| Readme.BranchSubtaskAt | main_task2.py:265-275 | subtask `j` appears under its own `### key: summary` heading, in map order |
| TestCases.Steps | main_task3.py:108-112 | one step per criterion, or a single generic step without criteria |
| TestCases.Expected | main_task3.py:113-118 | one expected result per criterion, or the description alone |
| TestCases.CaseLines | main_task3.py:104-119 | a case has six fixed lines around its steps and expected results |
| TestCases.SubtaskCases | main_task3.py:123-139 | one case per subtask |
| TestCases.FallbackOpening | main_task3.py:102-104 | the fallback begins with the title and summary, the task description and the `TC_<key>_01` heading |
| TestCases.StepNumbered | main_task3.py:109-110 | step `i` is numbered `i + 1`, written without a leading zero, and continues with `. Ensure ` |
| TestCases.StepLineNumber | main_task3.py:110 | a step line's leading digits read back as its number |
| TestCases.CaseShape | main_task3.py:104-119 | the steps and the expected results sit under their headings, in criteria order |
| TestCases.FallbackSubtaskSection | main_task3.py:121-122 | a `## Subtask Test Cases` section follows exactly when the task has subtasks |
| TestCases.FallbackSubtaskAt | main_task3.py:123-124 | subtask `j`'s case `TC_<subkey>_01` appears in map order |
| TestCases.HeaderText | main_task3.py:178-181 | the prepended header is the title with summary, a blank line, the description heading, the description and a blank line |
| TestCases.TestCase | main_task3.py:171-184 | every document opens with the title; an empty or missing reply gives the fallback; a reply with the title is kept whole; any other reply gets exactly the header in front |
| TestCases.GenerateTestCases | main_task3.py:143-186 | one document per task |
| TestCases.GeneratedPerTask | main_task3.py:145-186 | the documents have the tasks' keys in map order, each opening with its own task's title |
| TestCases.SkipCommentIff | main_task3.py:191-193 | the comment is skipped exactly when the phrase occurs in the document |
| TestCases.CommitTargetsCreatedBranch | main_task3.py:228-233 | each task's document is committed to exactly the branch stage 2 created for that task |

## Left out

- File reading and writing are parameters instead: the task file, `ticket_keys.json`, `all_test_cases.txt` and the document extraction (`extract_text_to_txt`, `read_txt_file`, `save_test_cases_to_text_file`).
- JSON parsing is not modelled: the registry arrives as a sequence of `Ticket` records, and a failed load is `None`.
- Logging and printing are not modelled, including the log line of the repaired ordinal. The ordinal itself is modelled as `Parser.RepairedOrdinal`.
- The network is replaced by oracles. `jira.create_issue` is the `Oracle` parameter `(call index, fields) -> Option<key>`; an exception is `None`. The Groq calls (`call_groq_api` with its retries and `time.sleep` backoff, and the stage-1 request) are the `replies` parameter `nat -> Option<string>`. Nothing about timing or retry counts is modelled.
- The Jira and GitHub plumbing is not modelled: connection, project lookup, repository creation, placeholder files, `get_contents`/`update_file`/`create_file`, `create_git_ref`, and the comment POST. The model states what they receive: the issue fields, the branch names, the README texts, the documents and the skip decision. Whether a GitHub call raises is an oracle only in `Branches.CreateBranches`.
- Branches.BranchNames: lists the names every rebuilt task would get. One `try` (main_task2.py:221, 298) surrounds the whole branch loop, so the first GitHub call that raises ends stage 2 and later tasks get no branch and no README. That path is modelled by `Branches.CreateBranches` with oracles for the branch and README calls. `BranchNames` is what it creates when every call returns (`Branches.CreateBranchesAllSucceed`).
- Readme.MainReadmeSections: states the text of the main README only. In `initialize_repo` one `try` (main_task2.py:67, 216) also covers the placeholder uploads before it, so a failed upload means the main README is never written. Those uploads and their failure are not modelled.
- The prompt template of `generate_prompt` and the stage-3 prompt are fixed text. The answer grammar they describe is `ParserLaws.Render`.
- Module-level configuration (issue types, project key, project name) is passed as parameters.
- Text.IsDigit: `\d` and `int()` are read as ASCII digits only. Python's `\d` on `str` patterns also accepts other Unicode decimal digits, which the `Task`/`Subtask` recognisers and `int()` would accept.
- Parser.ParseTasks: the text is split only at `\n`. The universal-newline translation of a text-mode `open()` (`\r\n` and `\r` read as `\n`) is not modelled.
- Text.DigitsValue: Python's `int()` limit of 4300 digits is not modelled; the model reads numerals of any length.
- Registry.Validated: a `Ticket`'s optional fields model presence only, and hold strings.
  - The required fields: the check at main_task2.py:31 tests only that `key`, `summary` and `type` are present. A JSON `null` or a non-string value there (say `"key": null`, or a numeric `summary`) passes the check. The model reads such a field as absent, so `Validated` returns `[]` for a registry that Python returns unchanged.
  - The optional fields: a JSON `null` or a non-string value in `description`, `acceptance_criteria` or `parent_key` is read as absent. `get` with a default would return `None` for a present `null` field, and other values would pass through as they are.
- TestCases.Steps: `crit.lower()` and `summary.lower()` use `Text.AsciiLower`, which lowers ASCII capitals only. Python's `lower()` also lowers other Unicode letters and can change the length.
- Text.IsSpace: the whitespace set is Python's `str.isspace`, which is what `strip()` and `\s` use on `str`.

## Findings

| source | as written | input that shows it | evidently intended | confidence | as-written member | corrected member |
|---|---|---|---|---|---|---|
| main_task1.py:253-265 | A `Task` header closes the open task but not the open subtask. The next task's `Description:` and `- ` lines go into that stale subtask, which is then filed under the next task. | The prompt's own example layout: task 1 with subtasks 1.1 and 1.2, then task 2 with a description and criteria. Parsed, task 1 keeps only 1.1, and 1.2 sits under task 2 with task 2's description and criteria. Task 2 is left with no description and no criteria. | A task header files the open subtask under the task it belongs to and closes it, so every task and subtask comes back as written. | not executed | ParserLaws.StaleSubtaskAbsorbsNextTask, ParserLaws.SampleLayoutMisfiled | ParserFixed.RoundTripFixed |
| main_task2.py:147 | Stages 2 and 3 recognise only the exact type names `Task` and `Subtask`. Stage 1 records whatever names the connection check fell back to (`Story`, `Issue`, `Sub-task`). | A project offering `Story` and `Sub-task` but not `Task`: stage 1 records `Story`/`Sub-task` entries, and stages 2 and 3 rebuild an empty map. A project offering `Task` and `Sub-task` loses every subtask. | Entries are classified by kind, which stage 1 records through `parent_key`, so every task comes back with its subtasks whatever type names were used. | not executed | Pipeline.StoryProjectRebuildsNothing, Pipeline.SubTaskProjectDropsSubtasks | Pipeline.RegistryRebuildsTasksByKind |
