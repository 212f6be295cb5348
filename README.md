# Technology-department dashboard: the page's logic in Dafny

The dashboard page (`src/pages/Index.tsx`) shows three literal collections: tasks,
projects and team members. It also shows a row of four summary cards and a task list
that a row of status buttons filters. This project models the computations behind that
view as Dafny functions over datatypes, and proves what each one promises:

- the task filter (`filteredTasks`) returns the whole list for `'all'`; otherwise it
  returns the stable subsequence of tasks with the selected status;
- the summary counts (`stats`) are filter lengths: they are bounded, they partition the
  task list, and they equal occurrence counts;
- the display lookups (`getStatusBadge`, `getPriorityColor`, the priority,
  project-status and presence captions, the filter buttons) are total and tell the
  enum values apart;
- the avatar initials (`name.split(' ').map(n => n[0]).join('')`) are the first
  characters of the name's non-empty words, in order, under JavaScript's `split`/`join`
  semantics;
- on the literal data the cards read 2 / 3 / 1 / 1, and the `'review'` filter shows task 2.

Modules: `JsArrays` (`Array.prototype.filter` and a subsequence predicate), `JsStrings`
(`split` on one character, `join`, round trips), `DashboardTypes` (the records),
`TaskFilter`, `DashboardStats`, `Display`, `AvatarInitials`, `SampleData` (the literals
and facts about them) and `IndexView`. The last holds the component's one piece of
state: the selected filter, which `setSelectedStatus` replaces wholesale.

The code does not check that a project's `progress` lies in 0..100. The model does not
check it either. It is proved only as a fact about the four literal projects
(`SampleData.SampleProgressInRange`). The status type is a closed datatype, so every
lookup over it is exhaustive by construction.

`getPriorityColor` takes any string, not only a priority. The model follows the code here:
`Display.GetPriorityColor` is a function on strings, and the priority enum reaches it
through its literal spelling (`DashboardTypes.PriorityKey`).

## Model

| member | source | states |
|---|---|---|
| `JsArrays.Filter` | src/pages/Index.tsx:66 | the result is no longer than the input, every kept element passes the callback, every kept element comes from the input, and every passing input element is kept |
| `JsArrays.FilterIsSubsequence` | src/pages/Index.tsx:66 | the filter is stable: its result is a subsequence of the input, in input order |
| `JsArrays.FilterMultiplicity` | src/pages/Index.tsx:66 | each element is kept exactly as often as it occurs when it passes, and not at all otherwise |
| `JsArrays.FilterAllKept` | src/pages/Index.tsx:66 | when every element passes, filtering returns the list unchanged |
| `JsArrays.FilterIdempotent` | src/pages/Index.tsx:66 | filtering twice with the same callback equals filtering once |
| `JsArrays.FilterAppend` | src/pages/Index.tsx:66 | filtering distributes over concatenation |
| `TaskFilter.FilteredTasks` | src/pages/Index.tsx:66 | `'all'` gives the input list itself; in every case the result is no longer than the input, shows only tasks the selection matches, shows every matching input task, and is a subsequence of the input |
| `TaskFilter.FilteredMultiplicity` | src/pages/Index.tsx:66 | a task occurs in the shown list as often as in the input when it matches the selection, and never otherwise |
| `TaskFilter.FilteredIdempotent` | src/pages/Index.tsx:66 | filtering the shown list again with the same selection returns it unchanged |
| `TaskFilter.FilteredDisjoint` | src/pages/Index.tsx:66 | two different statuses never show the same task (a direct corollary of `FilteredTasks`' ensures) |
| `TaskFilter.CountStatus` | src/pages/Index.tsx:83-86 | a per-status task count is at most the number of tasks |
| `TaskFilter.FilteredLengthIsCount` | src/pages/Index.tsx:83-86 | the length of the list a status button shows equals that status's count (definitional: both are the length of the same filter) |
| `TaskFilter.StatusCountsPartition` | src/pages/Index.tsx:83-86 | the `todo`, `in-progress`, `review` and `done` counts add up to the number of tasks (the status type on line 10 has exactly these four values) |
| `TaskFilter.CountStatusIsOccurrences` | src/pages/Index.tsx:83-86 | a status count equals the number of occurrences of that status in the status column |
| `DashboardStats.CountActive` | src/pages/Index.tsx:84 | the active-project count is at most the number of projects |
| `DashboardStats.CountActiveIsOccurrences` | src/pages/Index.tsx:84 | the active-project count equals the number of occurrences of `active` in the project status column |
| `DashboardStats.Stats` | src/pages/Index.tsx:82-87 | there are four cards; each task count is at most the number of tasks and the project count at most the number of projects; the in-progress, review and done counts plus the to-do count equal the number of tasks |
| `Display.StatusCaptionsDistinct` | src/pages/Index.tsx:68-76 | two statuses have the same badge caption exactly when they are the same status |
| `Display.StatusVariants` | src/pages/Index.tsx:68-76 | the `secondary` variant goes to exactly `todo` and `done`, `default` to exactly `in-progress`, `outline` to exactly `review` |
| `Display.PriorityColorFallback` | src/pages/Index.tsx:78-80 | `getPriorityColor` gives green exactly for the strings other than `'high'` and `'medium'` |
| `Display.PriorityColorsDistinct` | src/pages/Index.tsx:78-80 | the three priorities get three different colours |
| `Display.PriorityColorMatchesCaption` | src/pages/Index.tsx:171 | for every priority, the colour is red and the caption Высокий together, yellow and Средний together, green and Низкий together |
| `Display.ProjectBadges` | src/pages/Index.tsx:205-206 | only the active status gets the `default` variant, and the others get `secondary`; the three project statuses have three different captions |
| `Display.PresenceDisplay` | src/pages/Index.tsx:259 | the two presences get different dot colours (line 246) and different captions, and the green dot goes with the online caption |
| `Display.FilterOptionsExhaustive` | src/pages/Index.tsx:141 | every selection value has a button, and no two buttons carry the same value |
| `Display.ExactlyOneHighlighted` | src/pages/Index.tsx:144 | for any selection, some button gets the highlighted variant, and no two buttons do |
| `Display.FilterCaptionsDistinct` | src/pages/Index.tsx:149 | two buttons have the same caption exactly when they carry the same selection |
| `JsStrings.Split` | src/pages/Index.tsx:243 | splitting always gives at least one part, even for the empty string |
| `JsStrings.SplitPartCount` | src/pages/Index.tsx:243 | splitting gives one more part than there are separators |
| `JsStrings.SplitPartsExcludeSeparator` | src/pages/Index.tsx:243 | no part contains the separator |
| `JsStrings.JoinSplit` | src/pages/Index.tsx:243 | joining the parts with the separator gives back the original string |
| `JsStrings.SplitJoin` | src/pages/Index.tsx:243 | splitting a join of one or more separator-free parts gives back the parts |
| `JsStrings.SplitNoSeparator` | src/pages/Index.tsx:243 | a string without the separator splits into itself alone |
| `JsStrings.SplitAppend` | src/pages/Index.tsx:243 | splitting `a + sep + b` gives the parts of `a` followed by the parts of `b` |
| `JsStrings.JoinAppend` | src/pages/Index.tsx:243 | joining with the empty separator distributes over concatenation |
| `AvatarInitials.JoinRenderedFirstChars` | src/pages/Index.tsx:243 | rendering `n[0]` of every part and joining with `''` gives the first characters of the non-empty parts, in order |
| `AvatarInitials.InitialsAreWordHeads` | src/pages/Index.tsx:243 | the initials are the first characters of the name's non-empty space-separated parts, in order; empty parts contribute nothing |
| `AvatarInitials.InitialsOfWords` | src/pages/Index.tsx:243 | when no part is empty there is one initial per part, and initial `i` is the first character of part `i` |
| `AvatarInitials.InitialsHaveNoSpace` | src/pages/Index.tsx:243 | the initials never contain a space |
| `AvatarInitials.InitialsOfWord` | src/pages/Index.tsx:243 | a non-empty word without spaces yields its first character alone |
| `AvatarInitials.InitialsAppend` | src/pages/Index.tsx:243 | the initials of two names joined by a space are the initials of each, concatenated |
| `SampleData.SampleStats` | src/pages/Index.tsx:82-87 | on the literal data the four cards read 2, 3, 1 and 1 |
| `SampleData.SampleInProgress` | src/pages/Index.tsx:83 | two literal tasks are in progress |
| `SampleData.SampleActive` | src/pages/Index.tsx:84 | three literal projects are active |
| `SampleData.SampleDone` | src/pages/Index.tsx:86 | one literal task is done |
| `SampleData.SampleReviewFilter` | src/pages/Index.tsx:66 | selecting `'review'` on the literal tasks shows exactly task 2, "Оптимизация базы данных" |
| `SampleData.SampleProgressInRange` | src/pages/Index.tsx:51-56 | every literal project's progress lies in 0..100 |
| `SampleData.MemberInitials` | src/pages/Index.tsx:243 | the literal team members' avatars show АИ, МС, ЕК, ДП and НВ |
| `SampleData.SampleAssigneesAreTeamInitials` | src/pages/Index.tsx:42-64 | every literal task's assignee label equals the avatar initials of some team member |
| `IndexView.IndexPage.constructor` | src/pages/Index.tsx:40 | on mount the page holds the literal collections, and the selection is `'all'` |
| `IndexView.IndexPage.SetSelectedStatus` | src/pages/Index.tsx:146 | a click replaces the selection with the clicked value, whatever it was before |
| `IndexView.IndexPage.VisibleTasks` | src/pages/Index.tsx:66 | the shown tasks all match the current selection, and every matching task is shown |
| `IndexView.IndexPage.StatCards` | src/pages/Index.tsx:82-87 | four cards, with the project count bounded by the number of projects |
| `IndexView.SelectReview` | src/pages/Index.tsx:146 | mounting the page and clicking the `'review'` button shows exactly task 2 |

## Left out

- All JSX markup and layout, CSS classes other than the three priority colours and the presence dot colour, animation delays (lines 106, 156, 195, 237), and the tab navigation: these are presentation.
- The UI components imported from `@/components/ui/*` (lines 2-8): presentation components outside the page's logic.
- React's `useState` machinery and event wiring: the selection is a field that `SetSelectedStatus` replaces, and re-rendering is not modelled.
- The icon and colour of each summary card (lines 83-86): only the caption and value are modelled.
- `DashboardStats.Stats`: states the sum of the three displayed task counts plus the to-do count, not of the four counts directly; the four-way sum is `TaskFilter.StatusCountsPartition`.
- JavaScript numbers are modelled as unbounded integers. Ids, progress, task counts and completed counts are literals that nothing computes with.
- Dafny characters are Unicode scalar values; JavaScript's `n[0]` takes a UTF-16 code unit. The two differ only for characters outside the Basic Multilingual Plane, and the names on the page have none.
- `JsStrings.Split`: models `split` with a one-character separator only, the one form the page uses.
- Validation that the code does not perform: an out-of-range `progress` is accepted, as in the source.
- The `tasks` field of a project and the `project` name of a task are kept as data. Nothing computes with them, and no link between the two is enforced.
