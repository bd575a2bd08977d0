# PyBitica.txt core, in Dafny

`pybitica.txt.py` keeps a todo.txt file and a Habitica to-do list in step. This
project models the pure core of that script and proves properties about it:

- **the todo.txt line codec** (modules `Text`, `Dates`, `Tokens`, `TokenLaws`,
  `Pattern`, `Todos`):
  - `Todo.__str__` writes a task as a line.
  - `LocalTodo.__init__` reads a line back. Its two regular expressions are
    evaluated by a small backtracking matcher with the same alternative order
    as Python's `re.match`.
  - `parse_todotext` splits a description into text, `+projects`,
    `@contexts` and `key:value` addons.
  - `Todo.get_dict` builds the payload sent to the service, and
    `HabiticaTodo.__init__` builds a task from that payload.
  - Dates are `(year, month, day)` triples with `date.isoformat()` and
    `strptime("%Y-%m-%d")` written out.
- **the synchronisation loop** (module `Sync`), lines 286-363:
  - Each pass runs Phase A (discover remote tasks), then Phase B (push local
    tasks) if A counted nothing, then Phase C (reconcile completion and
    projects) if B counted nothing.
  - The loop repeats until a pass counts no action.
  - The remote service is a parameter `create`. It answers a creation request
    with an id or with nothing, given the requests made before it.
- **the final ordering** (modules `Sorting`, `Ordering`):
  - `local_todos.sort(key = lambda x: str(x))` is a stable sort by written line.
  - `sort_habitica_tasks` becomes a list of `(habitica_id, position)` move
    requests.

Python exceptions that end the script are `Err` values of `Todos.Error`:
- `NoMatch`: "Couldn't parse task".
- `BadDate`: `strptime` raises `ValueError`.
- `TypeError`: a string is concatenated with `None` or with a task object.

A Python dict is a sequence of `(key, value)` pairs in insertion order
(`Tokens.OrderedMap`). An addon value may be `None`. The loop stores one when it
links a local task to a remote task whose creation failed.

Behaviour of the script that the model keeps as written:

- Phase B does not write `habitica_id` into the local task (lines 325-330).
  The link is made by the Phase A text match of the next pass.
- The Phase A text match (lines 305-308) checks neither the completion flag
  nor an existing link. It can therefore overwrite a link. Links are never
  removed (`Sync.DiscoverKeeps`).
- A pending task without `habitica_id` at sorting time raises `TypeError`:
  line 225 builds its warning by adding a task object to a string, so the
  warning is never printed. After a loop that settled and a sort that
  succeeded, every pending task is linked and the move plan succeeds
  (`Ordering.SettledMovable`).
- The priority is kept as its letter. The script keeps the string `"(X) "`,
  and both write out identically.

## Model

| member | source | states |
|---|---|---|
| Text.Trim | pybitica.txt.py:174 | `str.strip()`: the result is a contiguous piece of the input with only whitespace removed around it, and it neither starts nor ends with whitespace |
| Text.TrimPadded | pybitica.txt.py:112 | stripping a date group `date + " "` gives back the date: a string with non-space ends followed by whitespace strips to itself |
| Text.LexLeTotal | pybitica.txt.py:367 | any two written lines are comparable in Python's string order |
| Text.LexLeAntisymmetric | pybitica.txt.py:367 | two lines that are each `<=` the other are equal |
| Text.LexLeTransitive | pybitica.txt.py:367 | the string order used as the sort key is transitive |
| Dates.NumberPad | pybitica.txt.py:48 | the zero-padded digits `isoformat` writes for a field read back as that field |
| Dates.PadNumber | pybitica.txt.py:112 | a digit string of a given width is the zero-padded rendering of its value |
| Dates.Iso | pybitica.txt.py:48 | `date.isoformat()` always has the shape `[0-9]{4}-[0-9]{2}-[0-9]{2}` that the line patterns accept |
| Dates.ReadDate | pybitica.txt.py:112 | `strptime("%Y-%m-%d")` succeeds only on that shape, and only for a date `datetime.date` can hold (year 1-9999, Gregorian month lengths) |
| Dates.ReadIso | pybitica.txt.py:48-50 | every valid date reads back from its `isoformat()` |
| Dates.IsoRead | pybitica.txt.py:112-115 | a string that reads as a date is exactly that date's `isoformat()` |
| Tokens.ScanSigilTokens | pybitica.txt.py:156-164 | every project (context) found by ` \+[^ ]+` (` \@[^ ]+`) and left-stripped is `+word` (`@word`): the sigil, at least one more character, no space |
| Tokens.ScanAddonsAtoms | pybitica.txt.py:158 | every addon found by `([^ :]+):([^ :]+)` is a key and a value, each non-empty with neither space nor colon |
| Tokens.Lookup | pybitica.txt.py:84-85 | `key in d` fails exactly when no pair has the key, and `d[key]` is the value of a pair with that key |
| Tokens.Put | pybitica.txt.py:167 | after `d[key] = v` the key maps to `v` and every other key keeps its value; a new key is appended at the end, and an existing one adds nothing |
| Tokens.PutPositions | pybitica.txt.py:308 | assigning to a dict key keeps every existing key in its insertion position |
| Tokens.PutDistinct | pybitica.txt.py:167 | assignment keeps the keys of a dict distinct |
| Tokens.PutAll | pybitica.txt.py:166-167 | filling the addon dict from the matches keeps its keys distinct; which value and which position each key gets is stated by `TokenLaws.PutAllLookup` and `TokenLaws.PutAllKeys` |
| Tokens.Tokenize | pybitica.txt.py:151-176 | `parse_todotext` returns only `+` tokens as projects and only `@` tokens as contexts, distinct addon keys, and a text stripped at both ends |
| Tokens.Values | pybitica.txt.py:64-69 | the addon values can be written exactly when none is `None`, and then they are the dict with its values unwrapped |
| TokenLaws.ScanSigilAppend | pybitica.txt.py:160-164 | `findall`/`subn` with the project or context regex on a text followed by space-led words is the scan of each part, concatenated |
| TokenLaws.ScanAddonsAppend | pybitica.txt.py:166-172 | the same for the addon regex |
| TokenLaws.ScanSigilSpacedTokens | pybitica.txt.py:60-63 | the written ` +p` (` @c`) words are found back in order, duplicates kept, and all removed |
| TokenLaws.ScanAddonsSpacedWords | pybitica.txt.py:64-69 | the written ` k:v` words are found back as the pairs in order, each leaving only its space behind |
| TokenLaws.PutAllFresh | pybitica.txt.py:166-167 | addons with distinct, fresh keys are stored in the order found |
| TokenLaws.LastValue | pybitica.txt.py:166-167 | the value of the last pair carrying a key: none exactly when no pair carries it, otherwise the value of a pair with that key after which no pair carries it |
| TokenLaws.PutAllLookup | pybitica.txt.py:166-167 | after the loop, a key some match carries maps to the value of its LAST match (a later duplicate overwrites), and every other key keeps its value |
| TokenLaws.PutKeys | pybitica.txt.py:167 | `d[key] = value` leaves the key list as it was when the key is present, and appends the key otherwise |
| TokenLaws.PutAllKeys | pybitica.txt.py:166-167 | after the loop, the keys are the keys already there followed by each new key once, in the order of its first match |
| TokenLaws.TokenizeRender | pybitica.txt.py:58-69 | round trip: `parse_todotext` of a clean text followed by written projects, contexts and addons gives back exactly that text and those tokens |
| TokenLaws.TokenizePresent | pybitica.txt.py:166-167 | `parse_todotext` never stores `None` as an addon value |
| TokenLaws.TokenizeClean | pybitica.txt.py:151-176 | a token-free text without outer whitespace is its own description and has no tokens |
| Pattern.SpaceRun | pybitica.txt.py:101 | `\s*` can cover exactly the leading whitespace run |
| Text.RunBefore | pybitica.txt.py:156-158 | `[^ ]+` (and `.` in `(.+)`) can cover exactly the characters before the first space (newline) |
| Pattern.Match | pybitica.txt.py:101-105 | a successful match yields one group per capturing group of the pattern |
| Pattern.PendingMatchIff | pybitica.txt.py:101 | the pending-task pattern matches exactly the strings holding a character other than a newline |
| Pattern.DoneMatchIff | pybitica.txt.py:104 | the completed-task pattern matches exactly the strings that start with `x ` and hold a non-newline character after it |
| Pattern.DateTaken | pybitica.txt.py:101 | the optional date group takes a date and its space when the rest of the pattern then matches |
| Pattern.DateSkipped | pybitica.txt.py:101 | the optional date group is skipped (group `None`) where no date starts |
| Pattern.PriorityTaken | pybitica.txt.py:101 | the optional priority group takes `(X) ` when the rest then matches |
| Pattern.PrioritySkipped | pybitica.txt.py:101 | it is skipped where no priority starts |
| Pattern.RestTakesLine | pybitica.txt.py:101 | `(.+)` takes a whole line up to its newline |
| Todos.Format | pybitica.txt.py:42-71 | `str(t)` succeeds exactly when no addon value is `None` (otherwise `TypeError`) and ends in a newline |
| Todos.GroupDate | pybitica.txt.py:111-115 | a skipped group gives no date; a parsed date's `isoformat()` is the stripped group; a `BadDate` error carries the stripped group and happens exactly when `strptime` rejects it |
| Todos.ParseLine | pybitica.txt.py:93-132 | a parsed line has no remote id and no `None` addon; a completed task has no priority and a pending one no completion date; the only errors are "no match" and a bad date |
| Todos.Interpret | pybitica.txt.py:107-130 | the task is completed exactly when the completed-task pattern matched, which is tried first |
| Todos.ParseLineNoMatch | pybitica.txt.py:128-130 | the "Couldn't parse task" exception is raised exactly for lines with no character other than newlines |
| Todos.ParseLineDone | pybitica.txt.py:104-109 | a parsed task is completed exactly when its line starts with `x ` followed by a non-newline character |
| Todos.GetDict | pybitica.txt.py:73-89 | the payload carries the completion flag and the text, the `habitica_id` addon as `id` when present, and a date string exactly when the task has that date |
| Todos.PayloadDates | pybitica.txt.py:79-82 | the payload's date strings read back as the task's dates |
| Todos.StripPriority | pybitica.txt.py:140 | `re.sub("^(\([A-Z]\) )", "", text)` removes exactly one leading `(X) ` and nothing otherwise |
| Todos.StripPriorityWord | pybitica.txt.py:140 | a written priority in front of a text is removed and the text kept |
| Todos.FromPayload | pybitica.txt.py:136-148 | `HabiticaTodo(d)` takes the flag from `completed` and the id from `id` (`None` when absent), sets no date or priority, and stores no `None` addon |
| Todos.PayloadMirror | pybitica.txt.py:136-148 | a task with a plain text comes back from its own payload with the same text, flag and link, and no tokens |
| Todos.MatchDoneLine | pybitica.txt.py:104 | the completed-task pattern splits a written completed line into its completion date, creation date and description |
| Todos.MatchPendingLine | pybitica.txt.py:101 | the pending-task pattern splits a written pending line into its priority, creation date and description |
| Todos.PendingLineNotDone | pybitica.txt.py:104-107 | a written pending line is never taken for a completed one |
| Todos.ParseDoneGroups | pybitica.txt.py:107-117 | the groups of a completed line become the completion date, creation date and description |
| Todos.ParsePendingGroups | pybitica.txt.py:119-126 | the groups of a pending line become the priority, creation date and description |
| Todos.RoundTrip | pybitica.txt.py:42-132 | round trip: a well-formed task is written without error and reads back as itself, except that a completed task loses its priority, a pending task loses its completion date, and the remote id is not part of a line |
| Sync.FirstWithText | pybitica.txt.py:305-307 | the text search finds the first local task with equal text, and finds none exactly when no task has it |
| Sync.SetLink | pybitica.txt.py:308 | `l.addons["habitica_id"] = id` sets that key and changes no other key or field |
| Sync.DiscoverOne | pybitica.txt.py:291-319 | one remote task counts at most one action; none (and nothing changes) exactly when it is completed or already linked; an action links a local task or appends one; it fails only while copying a task found neither by link nor by text |
| Sync.DiscoverZero | pybitica.txt.py:290-322 | Phase A counts no action, and then changes nothing, exactly when every pending remote task has a linked local task |
| Sync.DiscoverIdle | pybitica.txt.py:290-322 | Phase A counting no action leaves the local list as it was |
| Sync.DiscoverKeeps | pybitica.txt.py:290-319 | Phase A never drops or reorders local tasks; a task it touches only gains or changes `habitica_id`, never loses it |
| Sync.CopyMatchesText | pybitica.txt.py:317 | `LocalTodo(str(h))` of a well-formed pending remote task has its text, tokens and creation date |
| Sync.LocalCopy | pybitica.txt.py:317 | `LocalTodo(str(h))` fails with `TypeError` exactly when `h` has a `None` addon (otherwise only as the line parser fails), and a copy has no remote id and no `None` addon |
| Sync.Discover | pybitica.txt.py:290-322 | Phase A counts at most one action per remote task |
| Sync.DiscoverCopies | pybitica.txt.py:316-319 | a pending remote task found neither by link nor by text is copied to the end of the local list, for one action, whatever its copy reads back as |
| Sync.PriorityTextRemote | pybitica.txt.py:136-148 | the payload text `(A) (B) foo` gives a remote task with text `(B) foo`: only one priority is stripped |
| Sync.PriorityTextLine | pybitica.txt.py:42-132 | the task with text `(B) foo` is written as the line `(B) foo`, which reads back with priority B and text `foo` |
| Sync.PriorityTextRecopied | pybitica.txt.py:296-319 | the copy of that task has text `foo`, so it is found neither by link nor by text, and each pass copies the task again |
| Sync.DiscoverLinks | pybitica.txt.py:305-311 | a pending remote task found by text only links the first such local task, for one action |
| Sync.DiscoverLifecycle | pybitica.txt.py:296-319 | a new remote task is copied in one pass, linked to its copy by text in the next (unless the copy carries the link), and then recognised by link with no action |
| Sync.UnlinkedOf | pybitica.txt.py:326 | Phase B picks only pending local tasks without `habitica_id`, and picks every such task |
| Sync.UnlinkedOfCount | pybitica.txt.py:325-326 | Phase B picks each unlinked pending task as many times as the list holds it, and nothing else |
| Sync.UnlinkedOfAppend | pybitica.txt.py:325-326 | Phase B picks in list order: from a list made of two parts it picks what it picks from the first, then what it picks from the second |
| Sync.Mirror | pybitica.txt.py:327 | `HabiticaTodo(l.get_dict())` keeps the completion flag, takes its id from the `habitica_id` addon (`None` when absent), drops the dates and the priority, and stores no `None` addon |
| Sync.Created | pybitica.txt.py:189-190 | `create_habitica_task` sets the mirror's id to the reply's id only when the service answered with one |
| Sync.Push | pybitica.txt.py:324-331 | Phase B counts one action per unlinked pending local task, whether or not creation succeeds |
| Sync.PushIsCreateAll | pybitica.txt.py:325-330 | Phase B appends to the remote list and to the requests exactly the mirrors and creation requests of the unlinked pending tasks, in list order |
| Sync.PushShape | pybitica.txt.py:329 | Phase B keeps the remote tasks and requests already there, adding one of each per action |
| Sync.CreateAll | pybitica.txt.py:327-329 | one new remote task and one request per task mirrored |
| Sync.CreateAllPairs | pybitica.txt.py:327-329 | each request sends `get_dict` of its task's mirror, and each new remote task is that mirror with the answer's id |
| Sync.MirrorOfUnlinked | pybitica.txt.py:327-329 | the mirror of an unlinked pending task is pending, its id is exactly the service's answer, and a plain text crosses unchanged |
| Sync.AddMissing | pybitica.txt.py:354-362 | the project loop keeps the remote projects as a prefix, adds every local project, adds nothing else, and changes nothing when all are present |
| Sync.AddMissingAppends | pybitica.txt.py:354-362 | each appended project was not listed before and is appended once, and they come in the order the local task first lists them |
| Sync.Visit | pybitica.txt.py:339-362 | for an unlinked pair nothing happens; for a linked pair both flags become "either was done", an action is counted exactly when the flags differed, one completion request is made exactly when only the local task was done, and the local projects are added remotely; completing a remote task with id `None` fails |
| Sync.Sweep | pybitica.txt.py:338-362 | the inner loop keeps the number of remote tasks |
| Sync.SweepShape | pybitica.txt.py:338-362 | the inner loop may set the local flag and, per remote task, set its flag and append projects; nothing else changes |
| Sync.SweepZero | pybitica.txt.py:338-351 | the inner loop counts no action exactly when every linked remote task agrees with the local one, and then it changes no flag and makes no request |
| Sync.SweepCovers | pybitica.txt.py:354-362 | after the inner loop every linked remote task lists the local task's projects |
| Sync.SweepIdle | pybitica.txt.py:338-362 | when everything agrees and is covered, the inner loop changes nothing |
| Sync.Reconcile | pybitica.txt.py:337-362 | Phase C keeps the number of local and remote tasks |
| Sync.ReconcileShape | pybitica.txt.py:337-362 | Phase C may set completion flags on either side and append remote projects; nothing else changes |
| Sync.ReconcileLocals | pybitica.txt.py:341-344 | Phase C may only set local completion flags |
| Sync.ReconcileGrows | pybitica.txt.py:347-362 | Phase C may only set remote completion flags and append remote projects |
| Sync.ReconcileZero | pybitica.txt.py:336-351 | Phase C counts no action exactly when every linked pair agrees on completion, and then changes no flag and makes no request |
| Sync.ReconcileCovers | pybitica.txt.py:353-362 | after Phase C every linked remote task lists its local task's projects |
| Sync.ReconcileIdle | pybitica.txt.py:336-362 | when every linked pair agrees and is covered, Phase C changes nothing |
| Sync.Pass | pybitica.txt.py:286-363 | a pass never shrinks the remote list or the requests made; its meaning is stated by `Sync.PassZero`, `Sync.PassSettles` and `Sync.PassKeeps` |
| Sync.PassZero | pybitica.txt.py:286-363 | a pass counts no action exactly when every pending remote task is linked, every pending local task is linked, and every linked pair agrees |
| Sync.PassSettles | pybitica.txt.py:286-363 | a pass counting no action changes no local task and makes no request; it at most appends remote projects, after which every linked pair is covered |
| Sync.PassFixed | pybitica.txt.py:286-363 | a synced, covered state is a fixed point of the pass |
| Sync.PassKeeps | pybitica.txt.py:286-363 | a pass only adds: tasks stay in place, flags are never cleared, links never removed, requests only appended |
| Sync.Run | pybitica.txt.py:286-288 | the loop, bounded by `fuel` passes, ends only in a synced state in which every linked pair is covered |
| Sync.RunSettles | pybitica.txt.py:286-288 | whatever the loop ends with is synced, covered and left unchanged by a further pass |
| Sorting.Insert | pybitica.txt.py:367 | insertion adds exactly the one item |
| Sorting.Sort | pybitica.txt.py:367 | the sort is a permutation of its input |
| Sorting.InsertSorted | pybitica.txt.py:367 | inserting into a sorted list keeps it sorted |
| Sorting.SortSorted | pybitica.txt.py:367 | the result is in key order |
| Sorting.InsertWithKey | pybitica.txt.py:367 | an inserted item goes after every item with the same key |
| Sorting.SortStable | pybitica.txt.py:367 | the sort is stable: items with equal keys keep their relative order |
| Ordering.Line | pybitica.txt.py:367 | the sort key of a task is its written line, whenever it can be written |
| Ordering.Lines | pybitica.txt.py:367 | every key `str(x)` is computed before sorting: this fails with `TypeError` exactly when some task has a `None` addon, and otherwise gives each task's written line |
| Ordering.SortLocals | pybitica.txt.py:367 | the local sort fails with `TypeError` exactly when some task has a `None` addon, and otherwise permutes the tasks |
| Ordering.SortLocalsSpec | pybitica.txt.py:367 | the local sort fails exactly when some task has a `None` addon; otherwise it permutes the tasks, orders them by written line, and keeps tasks with equal lines in order |
| Ordering.Moves | pybitica.txt.py:218-234 | the only failure of `sort_habitica_tasks` is a `TypeError` |
| Ordering.MovesOk | pybitica.txt.py:219-228 | the move plan fails exactly when some pending task lacks `habitica_id` (line 225) or has `None` there (line 228) |
| Ordering.MovesTargets | pybitica.txt.py:219-228 | each request moves a pending task to its own index in the sorted list, under its `habitica_id` |
| Ordering.MovesAscending | pybitica.txt.py:219 | requests are made in strictly increasing position order |
| Ordering.MovesComplete | pybitica.txt.py:219-228 | every pending task gets a request |
| Ordering.MovePlan | pybitica.txt.py:218-234 | `sort_habitica_tasks` fails, always with `TypeError`, exactly when a pending task has no string `habitica_id`; otherwise each request moves a pending task to its own position under its id |
| Ordering.SyncedMovable | pybitica.txt.py:224-228 | on a list where no pending task lacks `habitica_id`, the plan succeeds unless a link is `None` |
| Ordering.PermutedMovable | pybitica.txt.py:366-368 | reordering a list keeps "every pending task is linked" and "no link is `None`", so the plan on the reordered list succeeds |
| Ordering.SettledMovable | pybitica.txt.py:286-368 | when the loop settles and the local sort succeeds, the sorted list has no pending task without `habitica_id` and the move plan succeeds: a `None` link would already have made the sort's `str(x)` fail |

## Left out

- Command-line parsing, the pickled options file and the interactive prompts (lines 28-38, 179-183, 236-256): configuration plumbing with no logic to verify.
- Reading todo.txt and writing it back (lines 259-265, 370-373). The model starts from lines with blank ones already dropped, and `Todos.Format` is what would be written.
- The initial fetch of remote tasks (lines 268-282). The remote list is an input, already built with `Todos.FromPayload`.
- The HTTP requests of `create_habitica_task`, `complete_habitica_task` and `sort_habitica_tasks` (lines 185-204, 228-234).
  - Creation is the `create` parameter of `Sync.Pass`.
  - Completion is recorded as a `Sync.Call` whose answer is ignored, as the script only prints it.
  - Moves are returned as a plan, `Ordering.MovePlan`, not sent.
- `update_habitica_name` (lines 206-215): it is never called; its only call, at line 363, is commented out.
- Every `print` (lines 191, 194, 201, 204, 225, 233-234, 309, 318, 342, 348): output only. The `TypeError` that line 225 raises while building its message is modelled.
- The `type(v) == type(datetime.date.today())` branch of `Todo.__str__` (lines 65-66): no code path stores a date as an addon value, so every value is a string or `None`.
- `'type': 'todo'` in `get_dict` (line 76): a constant key with no effect on the logic.
- `strptime` beyond what the patterns hand to it: the date groups always have the 4-2-2 digit shape, so `Dates.ReadDate` reads only that shape. Calendar validity is written out (years 1-9999, Gregorian month lengths).
- Termination of the loop: `Sync.Run` takes a `fuel` bound and answers `NoFixedPoint` when it runs out. Some inputs make the script loop forever: a pending remote task whose local copy does not reproduce its text is copied again on every pass. Such texts include those that start with a date or `x `, hold a newline, or still start with a priority once `HabiticaTodo` has stripped one (`Sync.PriorityTextRecopied`: `(A) (B) foo`). Only per-pass properties and the properties of a settled result are proved.
- Sync.Visit: when completing a remote task fails with `TypeError` (id `None`), the flags already changed in that pass are not returned, because the exception ends the script.
- Ordering.MovePlan: the requests made before a failing task are not returned with the error, since the exception ends the script.
- Tokens.Tokenize: idempotence on arbitrary text is not stated. `TokenLaws.TokenizeRender` covers every description `Todo.__str__` writes for a well-formed task. For example, `Buy milk +grocery @store due:2024-01-01` is the description written for text `Buy milk`, projects `[+grocery]`, contexts `[@store]` and addons `{due: 2024-01-01}`, so `TokenizeRender` gives back exactly those.
- Todos.RoundTrip: stated for well-formed tasks only.
  - The text is clean and free of tokens.
  - Tokens contain no `:`.
  - The description does not start like a prefix and has no newline.
  - A completed task with a creation date also has a completion date.
  - No round trip is stated for other tasks. Some do not read back as themselves: `Sync.PriorityTextLine` shows the task with text `(B) foo` read back as text `foo` with priority B.
