# Gene Board in Dafny

Gene Board is a tracker for issues, sprints and boards, with a PostgreSQL service behind a browser
client. These modules model its rules and protocols and prove what they promise.

- **Ranks** (`RankFractions`, `Rank`, `RankGrowth`, `RankGap`, `RankLoops`): the fractional keys that
  order issues, as functions on base-36 strings with their arithmetic, how long they get, and the loops
  over byte slices that compute them.
- **Lists** (`RankedList`, `Columns`): sorting by rank, or by position, behaves like a plain list.
- **The tracker** (`Tracker`, `TrackerInvariant`, `TrackerRuns`, `TrackerHistory`, `TrackerIsolation`,
  `SprintCompletion`, `KanbanSprints`, `Effects`, `Refusals`): every request as a step on the rows of all projects, what every
  reachable state satisfies, what each request writes and when it is refused, and what whole runs do. `Store.Database` performs the same requests check
  by check (`IssueChecks`) and statement by statement on its tables; each method is proved to end in the
  state of its step. `Sorting` and `SprintNames` are the two algorithms those requests use.
- **The project lock** (`LockProtocol`, `Membership`, `ProjectLock`, `Members`): transactions of many
  clients that check access, wait for a project's lock, check again, write a private copy and commit.
  The protocol is proved for any rows and operations, and applied to a project's members together with
  its statuses, sprints and issues.
- **Rate limits** (`RateLimit`, `LimiterObject`, `Throttle`): a token bucket per key, and the
  reserve-and-settle budget of failed logins. Times are nanoseconds, tokens are reals.
- **Realtime** (`Hub`, `HubObject`): a registry of subscribers, with publishers that send in one
  locked phase and drop slow subscribers in a later one.
- **Sessions** (`Sessions`, `Accounts`, `Client`, `TokenStorage`): the server's conditional writes and
  token versions, and the browser's handling of 401 answers in several tabs and of a storage that may
  fail.
- **Read models and search** (`Board`, `Like`, `Search`, `SqlBuilder`, `SqlText`): the backlog and the board,
  and the compiler from filters to conditions with numbered arguments and to the text of the WHERE
  clause, under SQL's three truth values.

Protocols are state machines: `Take` gives the state after a step, `IsRun` the runs of steps in any
order, and the main results are lemmas about every state of every run. A failed request leaves the
state as it was, as its transaction is rolled back.

## What was found

- The comments in `frontend/src/api/client.ts` promise that a 401 for a replaced token does not end the
  session. A rename re-issues the token it carried; when it is answered after a password change has
  stored a new token, the old one is put back, and the next 401 for it signs the user out
  (`Client.SlowRenameEndsSession`). Over every run the promise holds exactly if no rename is overtaken in
  this way (`Client.PromiseHoldsExactly`), which a tab that makes one session change at a time never does
  (`Client.OneAtATimeNeverOvertakes`).
- A session change's own 401 does not wait for other session changes, so a rename can end the session
  while a password change that succeeded is about to store its token
  (`Client.RenameEndsSessionDuringPasswordChange`; exactly when: `Client.EndsExactly`).
- `backend/internal/service/auth.go:123-125` says that concurrent updates of an account do not revert
  each other. That is so for updates as they are written (`Sessions.NothingIsReverted`), but an update
  that asks for the name it has just read writes no name, so a rename stored in between stays
  (`Sessions.AskedNameCanBeOvertaken`); exactly then the name is not the one asked for last
  (`Sessions.AskedNameIsStoredUnlessOvertaken`).
- Subscribers do not see a gap-free prefix of the events (`Hub.GapIsPossible`). What they have missed is
  exactly what publications that are about to drop them failed to send
  (`Hub.NothingMissedUnlessPending`), and when there is no gap is `Hub.GapFreeExactly`.
- A Kanban project's issues cannot gain a sprint (`TrackerHistory.KanbanIssuesOnlyLeaveSprints`) but can
  still change it, as completing a sprint checks no project type
  (`backend/internal/service/sprints.go:452-464`, `KanbanSprints.KanbanIssueCanMove`). Exactly that moves
  them: `KanbanSprints.KanbanIssueMovesExactly`.

## Model

| member | source | states |
|---|---|---|
| `RankFractions.ByteOrderIsFractionOrder` | backend/internal/rank/rank.go:1-7 | on keys without a trailing 0, byte order is the order of the base-36 fractions they denote, in both directions |
| `Rank.BetweenKey` | backend/internal/rank/rank.go:57-81 | a key is produced exactly when both bounds are absent or valid and in order; it is valid and lies strictly between them |
| `Rank.MidpointKey` | backend/internal/rank/rank.go:119-146 | terminates; the result is valid, strictly between its bounds, and at most one character longer than the longer one |
| `Rank.PrefixStrips` | backend/internal/rank/rank.go:121-130 | dropping the common prefix keeps a below b |
| `Rank.PrefixRestores` | backend/internal/rank/rank.go:121-130 | a key between the stripped bounds is between the full ones once the prefix is put back |
| `Rank.ClassKeyReadsBack` | backend/internal/rank/rank.go:83-117 | a key built from a length class and its digits has that class and those digits |
| `Rank.AfterIsLater` | backend/internal/rank/rank.go:83-99 | the key after a is valid and byte-wise greater than a |
| `Rank.BeforeIsEarlier` | backend/internal/rank/rank.go:101-117 | the key before b is valid and byte-wise smaller than b |
| `RankGrowth.AfterAdvancesByOne` | backend/internal/rank/rank.go:83-99 | each append moves exactly one place on in the sequence of classes and digits, and its length is bounded by its class |
| `RankGrowth.BeforeAdvancesByOne` | backend/internal/rank/rank.go:101-117 | each prepend moves exactly one place on, with the same length bound |
| `RankGrowth.AppendsStayShort` | backend/internal/rank/rank.go:8-14 | after n appends to the first key, the key has at most 2c+1 characters, c the largest number with 36^c <= n+19 |
| `RankGrowth.PrependsStayShort` | backend/internal/rank/rank.go:8-14 | after n prepends, the same bound with 36^c <= n+18 |
| `RankGap.MidpointSplits` | backend/internal/rank/rank.go:119-146 | a midpoint is one character longer than its bounds only if no key of their length fits between them, and otherwise halves what is left of one digit's range |
| `RankGap.GapsStayShort` | backend/internal/rank/rank.go:8-14 | after any n insertions into what is left of one gap, on whichever side, the key is at most n/5 + 1 characters longer than the longer of the first bounds |
| `RankLoops.IsValid` | backend/internal/rank/rank.go:42-55 | the validation loop accepts exactly the non-empty base-36 keys that do not end in 0 |
| `RankLoops.CountRun` | backend/internal/rank/rank.go:174-181 | the loop counts the leading run of a character |
| `RankLoops.FillWindow` | backend/internal/rank/rank.go:183-189 | the copied byte slice is the requested digits, padded with zeros |
| `RankLoops.Increment` | backend/internal/rank/rank.go:86-98 | on a byte slice whose first digit is not z, the carry loop adds one to the number its digits denote, in place |
| `RankLoops.Decrement` | backend/internal/rank/rank.go:104-116 | on a byte slice whose first digit is not 0, the borrow loop subtracts one, in place |
| `RankLoops.After` | backend/internal/rank/rank.go:83-99 | the in-place form computes the key after a |
| `RankLoops.Before` | backend/internal/rank/rank.go:101-117 | the in-place form computes the key before b |
| `RankLoops.SharedDigits` | backend/internal/rank/rank.go:121-126 | the prefix loop finds the length of the common prefix, a padded with zeros |
| `RankLoops.Midpoint` | backend/internal/rank/rank.go:119-146 | the recursion with its loop computes the midpoint key |
| `RankLoops.Between` | backend/internal/rank/rank.go:57-81 | the imperative form answers what BetweenKey does, errors included |
| `RankedList.ListIsUnique` | backend/internal/db/issues.sql.go:616-650 | distinct ranks determine one order: two lists of the same ranks are equal |
| `RankedList.ListExists` | backend/internal/db/issues.sql.go:616-650 | every set of distinct ranks is the ranks of some list |
| `RankedList.CreateRefinesAppend` | backend/internal/service/issues.go:156-167 | a rank above the largest always exists and puts the new issue at the end of the list |
| `RankedList.RankAfterIsSuccessor` | backend/internal/db/issues.sql.go:627-633 | the aggregate query returns the rank of the next entry of the list, the moved issue left out |
| `RankedList.RankBeforeIsPredecessor` | backend/internal/db/issues.sql.go:647-653 | the aggregate query returns the rank of the previous entry |
| `RankedList.MoveRefinesListMove` | backend/internal/service/issue_rules.go:227-275 | a move fails exactly when an issue is named as its own neighbour; otherwise it removes the issue and reinserts it right after prev, or right before next if only that exists |
| `RankedList.DeleteRefinesRemoval` | backend/internal/service/issues.go:515-570 | deleting issues removes them from the list and keeps the order of the rest |
| `TrackerRuns.StepRefinesList` | backend/internal/service/issue_rules.go:227-275 | each request does to the ranked rows what it does to the plain list |
| `TrackerRuns.RunRefinesList` | backend/internal/service/issues.go:482-504 | over every run, a project sorted by rank is the list its requests built; ranks stay valid and distinct |
| `TrackerRuns.OtherRanksStay` | backend/internal/service/issues.go:482-504 | no request changes the rank of an issue other than the one it moves |
| `TrackerRuns.NoInternalError` | backend/internal/service/issues.go:160-167 | in every reachable state no request fails for want of a rank, a default status or a parent row |
| `TrackerInvariant.RunKeeps` | backend/internal/service/issues.go:132-150 | in every reachable state epics have no parent and no sprint, standard issues an epic or no parent, subtasks a standard parent whose sprint they share; sprint and status references resolve within the project; at most one sprint is active; resolved_at is set exactly in done; ranks are distinct |
| `TrackerInvariant.StepKeeps` | backend/internal/service/issues.go:314-337 | every request keeps all of it |
| `TrackerInvariant.CreateIssueKeeps` | backend/internal/service/issues.go:107-167 | creating an issue keeps the invariant |
| `TrackerInvariant.PatchedIssueMayReplace` | backend/internal/service/issues.go:225-340 | a row that passes the checks of an update may replace the old one |
| `TrackerInvariant.UpdateIssueKeeps` | backend/internal/service/issues.go:212-380 | updating an issue, its subtasks following its sprint, keeps the invariant |
| `TrackerInvariant.MovedIssueMayReplace` | backend/internal/service/issues.go:443-478 | a row that passes the checks of a move may replace the old one |
| `TrackerInvariant.MoveIssueKeeps` | backend/internal/service/issues.go:432-510 | moving an issue keeps the invariant |
| `TrackerInvariant.DeleteIssueKeeps` | backend/internal/service/issues.go:515-570 | deleting an issue with its subtasks leaves no dangling parent |
| `TrackerInvariant.NewSprintKeeps` | backend/internal/service/sprints.go:212-233 | a new planned sprint keeps the invariant |
| `TrackerInvariant.UpdateSprintKeeps` | backend/internal/service/sprints.go:259-316 | editing a sprint keeps an active sprint dated |
| `TrackerInvariant.StartSprintKeeps` | backend/internal/service/sprints.go:353-423 | starting a sprint keeps at most one active |
| `TrackerInvariant.ResprintKeeps` | backend/internal/service/sprints.go:522-533 | moving standard issues together with their subtasks keeps subtasks in their parents' sprints |
| `TrackerInvariant.CompleteSprintKeeps` | backend/internal/service/sprints.go:429-517 | completing a sprint keeps the invariant |
| `TrackerInvariant.DeleteSprintKeeps` | backend/internal/service/sprints.go:321-347 | deleting a planned sprint leaves no reference to it, because subtasks follow their parents |
| `TrackerInvariant.CreateStatusKeeps` | backend/internal/service/statuses.go:50-90 | a new status keeps the columns gap-free |
| `TrackerInvariant.UpdateStatusKeeps` | backend/internal/service/statuses.go:98-159 | a category change keeps resolved_at tied to done |
| `TrackerInvariant.ReorderStatusesKeeps` | backend/internal/service/statuses.go:163-200 | a reorder makes the given list the column order |
| `TrackerInvariant.DeleteStatusKeeps` | backend/internal/service/statuses.go:204-265 | deleting a status with migration and compaction keeps the invariant |
| `TrackerInvariant.CreateProjectKeeps` | backend/internal/service/projects.go:99-118 | a new project starts within the invariant |
| `TrackerInvariant.DeleteProjectKeeps` | backend/internal/service/projects.go:193-213 | the cascade of a project's deletion leaves no dangling reference |
| `Columns.FirstIsHead` | backend/internal/service/issue_rules.go:37-48 | the default status is the leftmost column |
| `Columns.AppendColumn` | backend/internal/db/statuses.sql.go:260-269 | the next position puts a new status right of every column |
| `Columns.CompactIsIndex` | backend/internal/db/statuses.sql.go:12-21 | renumbering by row_number gives each status its place in the order |
| `Columns.DeleteColumn` | backend/internal/service/statuses.go:252-265 | deleting a status and compacting removes it from the column list |
| `Columns.ReorderColumns` | backend/internal/service/statuses.go:187-196 | giving each status of a permutation of the columns its index as position makes that permutation the column order |
| `TrackerRuns.RunRefinesColumns` | backend/internal/db/statuses.sql.go:271-276 | over every run, positions are exactly the places of the column list the requests built |
| `Effects.CreateWrites` | backend/internal/service/issues.go:104-182 | an accepted request adds one row with the fields asked for, the leftmost status by default, the sprint that type, parent and request give it, resolved exactly if in done, and a rank behind all others; nothing else changes |
| `Effects.UpdateWrites` | backend/internal/service/issues.go:232-380 | each column of the row is what its field asks for, or the old value; resolved_at follows the status; subtasks have the row's sprint, and no other row changes |
| `Effects.MoveWrites` | backend/internal/service/issues.go:454-504 | a drag and drop writes the status and the sprint asked for, a subtask staying in its parent's, and the rank; type, parent, points and details stay; the other rows change only as subtasks taken along |
| `Effects.DeleteWrites` | backend/internal/service/issues.go:515-570 | exactly the issue and its subtasks go, and its other children lose their parent |
| `Effects.CreateSprintWrites` | backend/internal/service/sprints.go:177-233 | one planned sprint with the name and dates given |
| `Effects.UpdateSprintWrites` | backend/internal/service/sprints.go:259-316 | name and dates are those asked for or the old ones; project and state stay |
| `Effects.StartSprintWrites` | backend/internal/service/sprints.go:353-423 | the sprint is active, with the name and dates asked for or the old ones |
| `Effects.CompleteWrites` | backend/internal/service/sprints.go:442-517 | the sprint is completed, no other column of it and no other sprint changes; a new sprint is planned, has the name given and no dates, and is the target; open issues and their subtasks go to the target; the project has no active sprint left |
| `Effects.CompletionCountsExactly` | backend/internal/service/sprints.go:473-511 | the counts answered are those of the open issues, which move, and of the done ones, which stay |
| `Effects.DeleteSprintWrites` | backend/internal/service/sprints.go:321-347 | the sprint goes and its issues lose it |
| `Effects.CreateStatusWrites` | backend/internal/service/statuses.go:50-90 | one status with the category given, right of all others |
| `Effects.UpdateStatusWrites` | backend/internal/service/statuses.go:98-159 | the status has the category given; its issues keep their status and are resolved now, still, or no longer |
| `Effects.ReorderWrites` | backend/internal/service/statuses.go:175-196 | each status has its place in the list as position |
| `Effects.DeleteStatusWrites` | backend/internal/service/statuses.go:204-265 | the status goes, its issues go to the one named, resolved now, still, or no longer; other statuses change in position only |
| `Effects.CreateProjectWrites` | backend/internal/service/projects.go:99-118 | the project has the type given and the four default statuses |
| `Effects.UpdateProjectWrites` | backend/internal/service/projects.go:132-188 | the project has the type given |
| `Effects.DeleteProjectWrites` | backend/internal/service/projects.go:193-213 | exactly the rows of the project go |
| `Effects.LogWrites` | backend/internal/service/issues.go:396-427 | every request logs one row with the old and the new name for each issue whose sprint changes, and no other row |
| `Refusals.RefusedExactly` | backend/internal/service/issue_rules.go:36-110 | in every reachable state each request is refused exactly in the cases and with the answer that Refusal lists, first failing check first, and then changes nothing |
| `Refusals.UpdateRefused` | backend/internal/service/issues.go:234-337 | the same of an update: missing issue, then all bad plain fields at once, then status, parent and sprint |
| `Refusals.MoveRefused` | backend/internal/service/issues.go:432-486 | the same of a drag and drop: status, issue, epic, status, sprint, then the two neighbours |
| `TrackerHistory.StepTracks` | backend/internal/service/issue_rules.go:186-195 | every request keeps resolved_at within done, sets it to the request's time on entry, and clears it outside |
| `TrackerHistory.ResolvedAtIsLastEntry` | backend/internal/service/statuses.go:98-159 | over every run, resolved_at is the time of the issue's last entry into done, and unset exactly when it is not in done |
| `TrackerHistory.StepLogsSprintChanges` | backend/internal/service/issues.go:396-427 | every request logs exactly one sprint change, with old and new names, for each issue whose sprint it changes, subtasks included, and none for any other |
| `TrackerHistory.StepShrinksCompleted` | backend/internal/service/issue_rules.go:87-102 | no request puts a standard issue into a completed sprint; and in a Kanban project no standard issue without a sprint gains one |
| `TrackerHistory.KanbanIssuesOnlyLeaveSprints` | backend/internal/service/issue_rules.go:87-102 | over every run in which a project stays Kanban, no standard issue of it, new or old, gains a sprint |
| `SprintCompletion.CompletionIgnoresProjectType` | backend/internal/service/sprints.go:452-470 | whatever the project's type, completing an active sprint into a planned one of the project succeeds and puts every open issue into it |
| `KanbanSprints.KanbanIssueMovesExactly` | backend/internal/service/issue_rules.go:82-102 | a standard issue of a Kanban project goes from one sprint to another exactly if the request completes its active sprint into a planned sprint of the project and the issue is open; no other request does it |
| `KanbanSprints.KanbanCompletionTarget` | backend/internal/service/sprints.go:447-470 | a Kanban project's sprint can be completed into another one exactly if it is active and the other is named and planned; not into a new one |
| `KanbanSprints.KanbanIssueCanMove` | backend/internal/service/sprints.go:452-470 | a run from the empty database after which a Kanban project's issue goes from one sprint to another |
| `TrackerIsolation.StepIsLocal` | backend/internal/service/issues.go:581-590 | no request changes the type, statuses, sprints or issues of a project it is not about |
| `TrackerIsolation.RunIsLocal` | backend/internal/service/projects.go:219-225 | over every run, requests about other projects leave a project as it was |
| `TrackerHistory.CompletedSprintNeverGrows` | backend/internal/service/sprints.go:429-517 | once a sprint is completed, no run ever adds a standard issue to it |
| `SprintCompletion.CompletionMovesOpenWork` | backend/internal/service/sprints.go:470-533 | exactly the open standard issues and their subtasks move, all to the target; no other row changes |
| `SprintCompletion.CompletionSplitsSprint` | backend/internal/service/sprints.go:470-517 | the target gains exactly the open issues, the completed sprint keeps exactly the done ones, no other sprint changes |
| `SprintCompletion.CompletionConserves` | backend/internal/db/sprints.sql.go:288-300 | the counts returned add up to the old issue count, the target gains the moved count and points, and what is left are done points only |
| `Store.DescribeIssueChanges` | backend/internal/service/issue_rules.go:318-386 | lists a change exactly when something differs, and a sprint change exactly when the sprint does |
| `Store.MoveStatements` | backend/internal/service/sprints.go:522-533 | the UPDATE of the issues and the UPDATE of out-of-step subtasks together put the issues and their subtasks into the target |
| `Store.MoveLogStatements` | backend/internal/db/sprints.sql.go:394-412 | the two INSERT ... SELECT statements together log every sprint change of the move once |
| `Store.ChangeStatements` | backend/internal/service/issues.go:396-427 | writing one row, logging its changes and syncing its subtasks is the step's effect and its log |
| `Store.NothingLeftInSprint` | backend/internal/service/sprints.go:335-343 | once its standard issues have left a sprint with their subtasks, ON DELETE SET NULL finds nothing to clear unlogged |
| `Store.DeletedRow` | backend/internal/service/issues.go:544-565 | deleting subtasks before their parent, ON DELETE SET NULL changes no row |
| `Store.Database.CreateIssue` | backend/internal/service/issues.go:73-205 | check by check and statement by statement, ends in the state of the create step, or in the old one with its error |
| `IssueChecks.BuildIssue` | backend/internal/service/issues.go:83-182 | the checks in their order, each reading what it needs, build the row of the create step or answer its first error |
| `IssueChecks.StatusOf` | backend/internal/service/issues.go:105-113 | the named status if it is the project's, or the leftmost one |
| `IssueChecks.SprintOf` | backend/internal/service/issues.go:132-150 | no sprint for an epic, the parent's for a subtask, an open one of the project for the rest |
| `Store.Database.SyncSubtasks` | backend/internal/service/issue_rules.go:200-220 | moves and logs exactly the subtasks that are out of step with their parent |
| `Store.Database.WriteIssueChanges` | backend/internal/service/issues.go:396-427 | row, log rows and synced subtasks are those of the changed issue |
| `Store.Database.LogChanges` | backend/internal/service/issues.go:420-427 | the loop writes the log rows of every listed change |
| `Store.Database.UpdateIssue` | backend/internal/service/issues.go:212-380 | check by check and statement by statement, ends in the state of the update step, or in the old one with its error |
| `IssueChecks.PatchFields` | backend/internal/service/issues.go:234-281 | reports every invalid plain field at once, or assigns the valid ones |
| `IssueChecks.PatchReferences` | backend/internal/service/issues.go:283-337 | status, parent and sprint are checked in turn against the type and parent the issue will have |
| `IssueChecks.PatchIssue` | backend/internal/service/issues.go:232-337 | field by field, builds the row of the update step or answers its error |
| `Store.Database.MoveIssue` | backend/internal/service/issues.go:432-510 | check by check and statement by statement, ends in the state of the move step, or in the old one with its error |
| `IssueChecks.PlaceIssue` | backend/internal/service/issues.go:454-481 | builds the status and sprint of a moved issue, a subtask staying in its parent's sprint |
| `IssueChecks.LoadNeighbour` | backend/internal/service/issue_rules.go:231-246 | the moved issue itself is refused, and an issue of no or another project counts as not given |
| `IssueChecks.NewRank` | backend/internal/service/issue_rules.go:227-275 | reading the neighbours and the rank beyond them one by one gives the rank of the move on the list |
| `Store.Database.WriteMove` | backend/internal/service/issues.go:482-504 | writing the changed columns and then the rank is the move's effect |
| `Store.Database.DeleteIssue` | backend/internal/service/issues.go:515-570 | the loop over subtasks and issue ends in the state of the delete step |
| `Store.Database.InsertSprint` | backend/internal/service/sprints.go:212-233 | refuses Kanban projects, else inserts a planned sprint |
| `Store.Database.CreateSprint` | backend/internal/service/sprints.go:177-206 | ends in the state of the create step, or in the old one with its error |
| `Store.Database.UpdateSprint` | backend/internal/service/sprints.go:259-316 | ends in the state of the update step, or in the old one with its error |
| `Store.Database.StartSprint` | backend/internal/service/sprints.go:353-423 | ends in the state of the start step, or in the old one with its error |
| `Store.Database.MoveIssuesToSprint` | backend/internal/service/sprints.go:522-533 | moves the listed issues and their subtasks and logs each move once |
| `Store.Database.CollectOpen` | backend/internal/service/sprints.go:484-500 | the loop collects exactly the open standard issues and counts all |
| `Store.Database.Destination` | backend/internal/service/sprints.go:452-471 | finds the backlog, the planned sprint named, or a sprint it inserts, or answers why not |
| `Store.Database.CompleteSprint` | backend/internal/service/sprints.go:429-517 | ends in the state of the completion step, with its two counts, or in the old one with its error |
| `Store.Database.DeleteSprint` | backend/internal/service/sprints.go:321-347 | ends in the state of the delete step, or in the old one with its error |
| `Store.Database.CreateStatus` | backend/internal/service/statuses.go:50-90 | ends in the state of the create step, or in the old one with its error |
| `Store.Database.ReorderStatuses` | backend/internal/service/statuses.go:163-200 | takes exactly the permutations of the statuses, and then they are the column order |
| `Store.Database.UpdateStatus` | backend/internal/service/statuses.go:98-159 | ends in the state of the update step, or in the old one with its error |
| `Store.Database.DeleteStatus` | backend/internal/service/statuses.go:204-265 | ends in the state of the delete step, or in the old one with its error |
| `Store.Database.CreateProject` | backend/internal/service/projects.go:99-118 | the loop over the default statuses ends in the state of the create step |
| `Store.Database.UpdateProject` | backend/internal/service/projects.go:132-188 | switches the project's type, or answers that it does not exist |
| `Store.Database.DeleteProject` | backend/internal/service/projects.go:193-213 | ends in the state of the cascade, or in the old one with its error |
| `Sorting.SamePermutation` | backend/internal/service/statuses.go:179-187 | comparing sorted copies of two id lists tells exactly whether they are permutations of each other |
| `Sorting.SortedIsUnique` | backend/internal/service/statuses.go:179-187 | a sorted list is determined by how often it holds each element |
| `SprintNames.NamesDiffer` | backend/internal/service/sprints.go:237-255 | different numbers give default names that differ even in lower case |
| `SprintNames.DefaultName` | backend/internal/service/sprints.go:237-255 | the search ends and finds the least number after the sprints created whose name is not taken in any case |
| `LockProtocol.CommitsAreSerial` | backend/internal/service/projects.go:219-236 | whatever rows the lock protects: every interleaving of transactions is equivalent to its commits run one after the other, each authorised and successful alone |
| `LockProtocol.CommitIsAuthorized` | backend/internal/service/projects.go:219-236 | at the moment of a commit its caller may do the operation, and the operation on the rows as they are yields what is installed |
| `LockProtocol.CommitTakesEffect` | backend/internal/service/tx.go:28-50 | after a commit the project holds exactly what the operation makes of its rows as they were at that moment, or is gone; no other project changes |
| `LockProtocol.OnlyCommitsChangeRows` | backend/internal/service/tx.go:28-50 | no other step changes any project's rows, but for the first rows of a new project |
| `LockProtocol.AloneSucceeds` | backend/internal/service/projects.go:219-236 | an authorised transaction on an unlocked project goes through: it commits what the operation answers, or fails and leaves everything as it was |
| `LockProtocol.BeginsExactly` | backend/internal/service/projects.go:219-236 | a transaction begins exactly if its caller may do the operation, whatever others are doing |
| `LockProtocol.CreatesExactly` | backend/internal/service/projects.go:99-118 | a project can be created at any time, exactly with the rows of a new one |
| `LockProtocol.AbortLeavesNothing` | backend/internal/service/tx.go:28-50 | a transaction that is given up leaves no rows and holds no lock |
| `LockProtocol.StepKeeps` | backend/internal/service/members.go:181-205 | every step keeps what the lock protects: what its holder read is still so, and the log replays to the rows |
| `LockProtocol.RowsStayOk` | backend/internal/service/projects.go:219-236 | whatever new rows satisfy and each operation alone preserves holds of every project in every interleaving |
| `ProjectLock.ProjectsStayGoverned` | backend/internal/service/members.go:98-205 | in every interleaving of membership changes and tracker requests each project has an admin, its lead and every assignee are members, and its issues, sprints and statuses satisfy the tracker's invariant |
| `ProjectLock.CommitsMeetMinimum` | backend/internal/service/permissions.go:22-52 | each commit is by a caller whose role at that moment meets the minimum of the operation |
| `ProjectLock.PerformKeepsRows` | backend/internal/service/members.go:133-175 | every operation on members and every tracker request keeps both invariants |
| `ProjectLock.WritesOneSide` | backend/internal/service/projects.go:219-236 | a membership change writes the members as it would alone, a tracker request the tracker's rows, and neither the other's |
| `ProjectLock.MayWorkExactly` | backend/internal/service/permissions.go:22-52 | admins may make every tracker request, members all but those on the project and its statuses, viewers none |
| `Membership.PerformKeepsProject` | backend/internal/service/members.go:133-175 | every operation keeps an admin, and a member's removal leaves neither lead nor assignment behind |
| `Membership.RolesLimitChanges` | backend/internal/service/permissions.go:22-52 | only admins change other people's membership, take the lead from others or delete the project; a viewer changes nothing except by leaving |
| `Membership.LeavingIsRefusedExactly` | backend/internal/service/members.go:133-175 | every member may leave, and is refused exactly as the project's only admin |
| `Membership.PerformsExactly` | backend/internal/service/members.go:48-175 | each operation is refused exactly in its listed cases, and else writes exactly the role, lead or assignee asked for; a leaver's lead and assignments are cleared |
| `Membership.AuthorizedExactly` | backend/internal/service/permissions.go:22-52 | admins may do everything, members work on issues, everybody may leave |
| `Members.ProjectRows.CountAdmins` | backend/internal/db/members.sql.go:39-41 | counts the members with the admin role |
| `Members.ProjectRows.EnsureAnotherAdmin` | backend/internal/service/members.go:196-205 | refuses exactly when there is at most one admin |
| `Members.ProjectRows.AddMember` | backend/internal/service/members.go:48-95 | adds the user found, or answers that there is none or that they are a member |
| `Members.ProjectRows.UpdateMember` | backend/internal/service/members.go:98-128 | changes the role unless the last admin would be demoted |
| `Members.ProjectRows.RemoveMember` | backend/internal/service/members.go:133-175 | unassigns, clears the lead and deletes the membership unless the last admin would go |
| `Members.ProjectRows.SetLead` | backend/internal/service/projects.go:170-186 | sets a lead who is a member, or keeps the old one |
| `Members.ProjectRows.CreateIssue` | backend/internal/service/issues.go:107-156 | numbers the issue and assigns it to a member or nobody |
| `Members.ProjectRows.Assign` | backend/internal/service/issues.go:291-299 | assigns an issue to a member or nobody |
| `Members.ProjectRows.constructor` | backend/internal/service/projects.go:99-109 | the creator is admin and lead |
| `RateLimit.LevelRises` | backend/internal/ratelimit/ratelimit.go:73-88 | the level of a bucket rises at the refill rate and stops at the burst |
| `RateLimit.RefillKeepsLevels` | backend/internal/ratelimit/ratelimit.go:73-107 | refilling a bucket and sweeping idle ones change no key's level, now or later |
| `RateLimit.SweepsOnceAMinute` | backend/internal/ratelimit/ratelimit.go:95-107 | a call drops exactly the buckets that have refilled, at most once a minute, and gives no other key one |
| `RateLimit.CallByLevel` | backend/internal/ratelimit/ratelimit.go:44-71 | answer and effect of each call depend on the key's level alone, and touch no other key |
| `RateLimit.SweepingIsUnobservable` | backend/internal/ratelimit/ratelimit.go:95-107 | for every sequence of calls under a monotone clock, a limiter that sweeps and one that never does give the same answers and waits |
| `RateLimit.BudgetHolds` | backend/internal/ratelimit/ratelimit.go:44-63 | calls allowed less refunds, plus what is left, never exceed what there was and what was earned |
| `RateLimit.RateIsBounded` | backend/internal/ratelimit/ratelimit.go:44-63 | without a reset, calls allowed less refunds within T are at most burst + rate * T |
| `RateLimit.PollingIsRefused` | backend/internal/ratelimit/ratelimit.go:44-55 | attempts while there is less than one token are refused and do not delay the next token |
| `RateLimit.WaitIsExact` | backend/internal/ratelimit/ratelimit.go:90-93 | after a refusal with wait w, every attempt before now+w is refused however often it is polled, and the attempt at now+w succeeds |
| `LimiterObject.Limiter.SweepIdle` | backend/internal/ratelimit/ratelimit.go:97-107 | the loop deletes exactly the buckets that have refilled, once a minute |
| `LimiterObject.Limiter.RefillBucket` | backend/internal/ratelimit/ratelimit.go:73-88 | sweeps, then creates or tops up the key's bucket |
| `LimiterObject.Limiter.TryTake` | backend/internal/ratelimit/ratelimit.go:44-55 | takes a token or answers the wait |
| `LimiterObject.Limiter.GiveBack` | backend/internal/ratelimit/ratelimit.go:58-63 | gives a token back up to the burst |
| `LimiterObject.Limiter.Forget` | backend/internal/ratelimit/ratelimit.go:66-70 | deletes the bucket |
| `Throttle.StepKeepsCovered` | backend/internal/api/throttle.go:69-88 | every login step keeps failures and pending checks within the budget |
| `Throttle.FailuresAreBounded` | backend/internal/api/throttle.go:22-25 | in every interleaving of logins to one account from a fresh budget with none succeeding, failed attempts and attempts being checked never exceed 10 plus the elapsed minutes |
| `Throttle.LetThroughExactly` | backend/internal/api/throttle.go:69-79 | a login is let through exactly if the account's budget holds a whole failure, which is reserved; otherwise nothing changes |
| `Throttle.SettlesExactly` | backend/internal/api/throttle.go:81-128 | success restores the full budget of 10, a wrong password keeps the failure spent, an unchecked attempt gives it back; no other account is touched |
| `Throttle.AlwaysPossible` | backend/internal/api/throttle.go:69-89 | a login can be tried at any time and settles once; without an e-mail no budget is spent |
| `Hub.StepKeeps` | backend/internal/realtime/hub.go:66-150 | every step of every publisher, subscriber and consumer keeps the hub's invariant |
| `Hub.OpenExactlyWhileRegistered` | backend/internal/realtime/hub.go:66-90 | in every interleaving a channel is open exactly while registered, and closed at most once |
| `Hub.NeverSendsToClosed` | backend/internal/realtime/hub.go:93-104 | no publication ever sends on a closed channel |
| `Hub.SubscribeOpens` | backend/internal/realtime/hub.go:66-82 | subscribing opens a channel that has missed nothing, or a closed one on a closed hub, and changes no other |
| `Hub.UnsubscribeCloses` | backend/internal/realtime/hub.go:137-150 | afterwards the channel is closed and unregistered, and no other is touched |
| `Hub.CloseClosesAll` | backend/internal/realtime/hub.go:124-133 | afterwards every channel is closed and the hub is |
| `Hub.ClosedIsFinal` | backend/internal/realtime/hub.go:66-133 | once the hub is closed, no channel is ever open again |
| `Hub.PublishStarts` | backend/internal/realtime/hub.go:93-98 | a publication starts with exactly the registered subscribers of its project before it |
| `Hub.SendReachesIfRoom` | backend/internal/realtime/hub.go:96-104 | a send delivers exactly if the buffer has room, and else notes the subscriber as slow |
| `Hub.SlowAreDropped` | backend/internal/realtime/hub.go:106-112 | a publication that has sent to all closes exactly the slow subscribers' channels and is over |
| `Hub.ReceivesInOrder` | backend/internal/realtime/hub.go:37-46 | a consumer takes what was sent, in that order, exactly as long as there is something, even after the channel is closed |
| `Hub.NothingMissedUnlessPending` | backend/internal/realtime/hub.go:93-113 | a registered subscriber has been sent each event of its project since it subscribed once, except exactly those of publications still sending to it or about to drop it |
| `Hub.GapFreeExactly` | backend/internal/realtime/hub.go:93-113 | a subscriber's events are a gap-free prefix of those due to it exactly if they came in order and every publication pending for it is later than all it was sent |
| `Hub.GapIsPossible` | backend/internal/realtime/hub.go:93-113 | a run in which a subscriber misses an event and is sent the next one before it is dropped |
| `HubObject.Registry.Subscribe` | backend/internal/realtime/hub.go:66-82 | registers an open channel, or returns a closed one on a closed hub |
| `HubObject.Registry.RemoveSubscription` | backend/internal/realtime/hub.go:137-150 | unregisters and closes once, and drops empty projects |
| `HubObject.Registry.Shut` | backend/internal/realtime/hub.go:124-133 | the nested loops close every channel and empty the registry |
| `HubObject.Registry.Publish` | backend/internal/realtime/hub.go:93-113 | delivers to everyone with room and drops everyone without |
| `HubObject.Registry.SendToAll` | backend/internal/realtime/hub.go:96-104 | the send loop reaches exactly the subscribers with room and reports the others |
| `HubObject.Registry.DropSlow` | backend/internal/realtime/hub.go:106-112 | the drop loop removes exactly the reported subscribers |
| `HubObject.SendsAgree` | backend/internal/realtime/hub.go:96-104 | each send leads to the same state, whatever the order of the sends |
| `HubObject.SendsEndInAllSent` | backend/internal/realtime/hub.go:96-104 | any sequence of sends that leaves nobody to send to ends in the one state where whoever has room was sent the event |
| `HubObject.SendsCanEnd` | backend/internal/realtime/hub.go:96-104 | a publication can always send to everybody |
| `HubObject.PhasesPublish` | backend/internal/realtime/hub.go:93-113 | with nobody else publishing, the steps of a publication, its sends in any order, end in the state the object's method leaves |
| `HubObject.RemoveOneMore` | backend/internal/realtime/hub.go:137-150 | removing subscriptions one by one removes them all, in whatever order |
| `Sessions.StepKeeps` | backend/internal/service/auth.go:129-218 | every step of registering, logging in, renaming and changing passwords keeps the invariant |
| `Sessions.AcceptedTokensKnowThePassword` | backend/internal/service/service.go:86-102 | in every interleaving, a token that is accepted was issued after its holder's password was checked against, or set as, the hash stored now |
| `Sessions.AcceptedTokensWereIssued` | backend/internal/service/service.go:86-102 | no token is accepted that was not issued for the password stored now |
| `Sessions.LoginSucceedsExactly` | backend/internal/service/auth.go:78-103 | in every reachable state a login yields an accepted token exactly if the account exists and the password is the stored one |
| `Sessions.RegistrationSucceedsExactly` | backend/internal/service/auth.go:52-76 | registering succeeds exactly if no account has the e-mail, adds the account, and its token is accepted |
| `Sessions.UpdateSucceedsExactly` | backend/internal/service/auth.go:129-218 | an update needs an accepted token and, for a new password, the current one; it writes exactly what was asked for, and the renewed token is accepted |
| `Sessions.IssuedTokenIsAccepted` | backend/internal/service/service.go:86-102 | a token is accepted when issued exactly if no password change of the account has committed since its request read or wrote the account |
| `Sessions.AcceptedUntilPasswordChange` | backend/internal/service/service.go:86-102 | an accepted token is accepted exactly until the account's next committed password change, and a rejected one never again |
| `Sessions.PasswordChangeRevokes` | backend/internal/db/users.sql.go:168-178 | a committed password change revokes every token issued before |
| `Sessions.OneChangePerHash` | backend/internal/db/users.sql.go:168-178 | of the password changes that verified one hash, at most one commits |
| `Sessions.OnlyWhatWasAskedChanges` | backend/internal/service/auth.go:117-128 | a step changes a name or a password only if its request asked for that value, and a password only over the hash the request verified |
| `Sessions.NothingIsReverted` | backend/internal/service/auth.go:123-128 | the name is the one asked for by the latest commit that asked for another name than it had read, the password that of the latest commit that asked for one, and the version counts those |
| `Sessions.AskedNameIsStoredUnlessOvertaken` | backend/internal/service/auth.go:145-157 | the name is the one the latest commit naming the account asked for, unless exactly that commit asked for the name it had read while another was stored in between |
| `Sessions.AskedNameCanBeOvertaken` | backend/internal/service/auth.go:145-157 | a run whose last commit asked for one name while the account keeps another |
| `Accounts.UserTable.WriteUser` | backend/internal/db/users.sql.go:168-178 | writes the given columns exactly if version and verified hash are still current |
| `Accounts.UserTable.UpdateMe` | backend/internal/service/auth.go:129-210 | alone, changes only what was asked for, needs the current password for a new one, and answers each error exactly in its case |
| `Accounts.UserTable.HashPassword` | backend/internal/service/auth.go:175-190 | the hash verifies the password and differs from every stored one |
| `Client.ResentAtMostOnce` | frontend/src/api/client.ts:230-231 | each request is sent once, or sent again once |
| `Client.WaitingIsOneDeep` | frontend/src/api/client.ts:262-269 | what a waiting request waits for never waits itself |
| `Client.EndsExactly` | frontend/src/api/client.ts:262-280 | a 401 ends the session exactly if its token is current and it is not a sign-in nor an ordinary request whose tab has a session change in flight; after waiting, exactly if its token is current |
| `Client.OnlyUnauthorizedEnds` | frontend/src/api/client.ts:262-280 | no other step ends a session |
| `Client.UnauthorizedDoes` | frontend/src/api/client.ts:262-280 | what a 401 does to a request in flight: a sign-in fails, an ordinary one whose token is current waits for its tab's session changes, all else is decided |
| `Client.AnswerDoes` | frontend/src/api/client.ts:93-116 | a failed request just ends; a successful rename holds the token it carried to be stored, a password change a new one |
| `Client.WakeDecides` | frontend/src/api/client.ts:262-280 | a waiting request is decided as soon as all it awaits is over, and not before |
| `Client.ResentExactly` | frontend/src/api/client.ts:271-280 | a request is sent again exactly at its first 401 decided while another token is current, and then carries that token |
| `Client.GoesBackExactly` | frontend/src/api/client.ts:91-95 | a replaced token is put back exactly by the stored answer of a rename whose token gave way while it was in flight |
| `Client.StaleOnlyIfOvertaken` | frontend/src/api/client.ts:91-116 | the current token is never a replaced one exactly if no rename is overtaken |
| `Client.BreaksExactlyIfStale` | frontend/src/api/client.ts:271-280 | a 401, of a request under way or sent now, can end the session over a replaced token exactly if the current token is a replaced one |
| `Client.OrdinaryBreaksExactlyIfStale` | frontend/src/api/client.ts:262-280 | the same of an ordinary request of a tab without session changes in flight |
| `Client.PromiseHoldsExactly` | frontend/src/api/client.ts:101-116 | over every run, no 401 could end the session over a replaced token exactly if no rename was overtaken |
| `Client.ReplacedTokenKeepsSession` | frontend/src/api/client.ts:274-280 | without overtaken renames, no 401 for a replaced token ends the session |
| `Client.OneAtATimeNeverOvertakes` | frontend/src/api/client.ts:98-116 | a tab that makes one session change at a time overtakes no rename |
| `Client.ChangeInFlightKeepsSession` | frontend/src/api/client.ts:262-280 | a 401 that waits for a session change which stores another token ends the session exactly if its token was put back meanwhile |
| `Client.SlowRenameEndsSession` | frontend/src/api/client.ts:104-109 | a run in which a rename's answer puts a replaced token back and a 401 for it ends the session |
| `Client.RenameEndsSessionDuringPasswordChange` | frontend/src/api/client.ts:262-274 | a run in which a rename's own 401 ends the session while a password change that succeeded is about to store its token |
| `TokenStorage.WritesAreReadBack` | frontend/src/api/client.ts:43-84 | the page reads back what it wrote, whichever storage accesses fail |
| `TokenStorage.OtherTabIsSeen` | frontend/src/api/client.ts:43-84 | exactly when another tab's write is seen by the next read |
| `TokenStorage.ReadsAgree` | frontend/src/api/client.ts:71-77 | two reads in a row agree even if storage stops being readable |
| `TokenStorage.FailedReadIsFinal` | frontend/src/api/client.ts:51-59 | after a read has failed no later read touches storage, and the page answers what it holds |
| `TokenStorage.PageStorage.ReadStored` | frontend/src/api/client.ts:51-59 | reads storage unless a read failed before, and remembers a failure |
| `TokenStorage.PageStorage.WriteStored` | frontend/src/api/client.ts:61-70 | keeps the page's copy and notes what a failed write left in storage |
| `TokenStorage.PageStorage.GetToken` | frontend/src/api/client.ts:71-77 | answers the page's copy or what storage holds |
| `Board.Backlog` | backend/internal/service/board.go:103-146 | an issue is in the section of its active or planned sprint, or in the backlog if it has no sprint or is open in a completed one; sections are those sprints, the active one first, all in rank order |
| `Board.EachHasOnePlace` | backend/internal/db/board.sql.go:12-22 | every story, task and bug has one place, except exactly the done ones of completed sprints, which have none |
| `Board.Distribute` | backend/internal/service/board.go:130-142 | the loop puts each row into the section of its sprint or into the backlog, in order |
| `Board.OrderByRank` | backend/internal/db/board.sql.go:12-22 | the rows come in rank order, each once |
| `Board.OrderSprints` | backend/internal/db/sprints.sql.go:173-181 | the active sprint first, then the planned ones by id |
| `Board.UnlistedParents` | backend/internal/service/board.go:78-95 | exactly the parents of listed subtasks that are not listed, by id |
| `Board.BoardOf` | backend/internal/service/board.go:23-72 | a Kanban board lists all issues but epics that are not done or were resolved at most 14 days ago, a Scrum board those of the active sprint, in rank order; a listed subtask's parent is in exactly one of the two lists; the second holds parents of listed subtasks only |
| `Board.KanbanShowsRecentlyDone` | backend/internal/db/board.sql.go:123-133 | in every reachable state the Kanban query selects exactly the issues not done, and those whose last entry into done was at most 14 days ago |
| `Board.ScrumListsParents` | backend/internal/db/board.sql.go:227-232 | a sprint's board lists the parents of its subtasks |
| `Board.ReachableScrumBoardsAreComplete` | backend/internal/service/board.go:73-77 | in every reachable state a sprint's board holds the parents of its subtasks |
| `Like.EscapeReadsBack` | backend/internal/service/validate.go:173-176 | escaped text reads back as its own characters, whatever follows |
| `Like.EscapedTextMatchesLiterally` | backend/internal/service/validate.go:173-176 | the escaped text between wildcards matches exactly the texts that contain it literally, up to case |
| `Search.MoreArguments` | backend/internal/service/issue_query.go:327-333 | arguments registered later do not change what a condition means |
| `Search.ByAlternativesSelects` | backend/internal/service/issue_query.go:239-278 | the OR of "one of", "none" and "active" adds exactly that filter, NULLs included |
| `Search.ByTextSelects` | backend/internal/service/issue_query.go:222-226 | the text condition adds exactly: key, summary or description |
| `Search.SearchFindsExactly` | backend/internal/service/issue_query.go:210-291 | for every search, the conditions with their numbered arguments select exactly the issues meeting all filters |
| `SqlText.ClauseSelects` | backend/internal/service/issue_query.go:335-349 | the joined text, alternatives in parentheses, reads back as one expression, AND before OR, that holds of exactly the rows the conditions select |
| `SqlText.SearchTextFindsExactly` | backend/internal/service/issue_query.go:210-291 | for every search, the text of the WHERE clause, read by SQL's precedence and evaluated with its arguments, holds of exactly the issues meeting all filters |
| `SqlBuilder.Builder.AddArg` | backend/internal/service/issue_query.go:330-333 | registers an argument and returns the number of its placeholder |
| `SqlBuilder.Builder.AddWhereAny` | backend/internal/service/issue_query.go:338-342 | adds the disjunction only if there is an alternative |
| `SqlBuilder.Builder.AddAlternatives` | backend/internal/service/issue_query.go:239-278 | collects the alternatives that were asked for |
| `SqlBuilder.Builder.AddFilters` | backend/internal/service/issue_query.go:210-291 | fills the builder filter by filter; what it holds selects exactly the issues meeting the query |

## Left out

- Each of the tracker, sessions and search has its own rows: user names, roles and assignees are not in `Tracker`, and its issues in `ProjectLock` are not linked to the assignees there.
- `Tracker`: ids of all tables come from one counter, which is never reused, instead of one counter per table.
- `Tracker`: labels, assignees, reporters, goals, comments, links and updated_at, and the activity log apart from its sprint rows; summary, description, priority and due date are one column that no rule looks at.
- `Tracker`: formats and lengths of names and texts; the caller's role (see `ProjectLock`). Names of new sprints are given; `SprintNames` finds the default one.
- Store.Database.CreateStatus: names and WIP limits of statuses are not modelled, hence no conflict of two equal names.
- Store.Database.UpdateStatus: changes the category only; names, WIP limits and the conflict of two equal names are not modelled.
- Store.Database.CreateProject: names, keys and their conflict are not modelled; the creator's membership and lead are in `Membership`.
- Store.Database.UpdateProject: changes the type only; names are not modelled, and the lead is set by `Members.ProjectRows.SetLead`.
- PostgreSQL's lock modes and snapshots: a project row is an exclusive lock, reads under it are current, and each UPDATE is one update of a set of rows. Nothing is said about deadlocks: comments and links are written without the project lock.
- ProjectLock.ProjectsStayGoverned: reporters are not tied to membership, as the code does not clear them.
- Sessions.AcceptedTokensKnowThePassword: a hash is the pair of password and fresh salt and a token the pair of user and version; expiry, which only rejects more, and the format checks of names, e-mails and passwords are not modelled.
- Accounts.UserTable.UpdateMe: runs with nobody else writing, so it never answers a conflict; the interleavings are those of `Sessions`.
- Throttle.FailuresAreBounded: is stated for logins; password changes settle a budget of the same size per session in the same way. The budget per client address is not modelled.
- RateLimit.WaitIsExact: tokens are reals, so rounding of floating-point numbers is not modelled.
- Hub.NothingMissedUnlessPending: the order in which concurrent publications reach one subscriber is left open, as the read lock leaves it open.
- HubObject.Registry.Publish: runs its two phases without others in between; the interleavings are those of `Hub`.
- Client.PromiseHoldsExactly: tokens the server gives out at sign-ins and password changes are taken to be new; two tokens of one account and version issued within the same second could be equal.
- Client.ChangeInFlightKeepsSession: the token is read and written at once; `TokenStorage` treats a storage that fails.
- Board.Backlog: rows are ids; their conversion and hydration into answers is not modelled. Ties in rank, which only manual SQL can create, do not occur.
- Board.BoardOf: a day is 24 hours.
- Like.EscapedTextMatchesLiterally: case is folded character by character by any function; collations that fold several characters into one are not modelled.
- SprintNames.DefaultName: lower-casing works character by character and leaves digits alone.
- SqlText.SearchTextFindsExactly: the text of a single comparison, subqueries included, is one word with its meaning; sorting and paging of the results are not modelled.
- Epics, labels, comments, links, user search and the HTTP, websocket and React layers: they would only add easy members.
