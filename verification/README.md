# Citizen-science ledger, modelled in Dafny

The ledger keeps research projects, the tasks attached to them, the data
users submit for tasks, and the reward balance each user has earned. It has
two id counters, one for projects and one for tasks, each starting at 0 after
a reset. It has eight operations:

- `createProject` files an "active" project under the next project id.
- `createTask` files an "open" task under the next task id, but only for a
  project that exists. The id is appended to that project's task list.
- `submitData` records a user's payload for an open task. A second
  submission by the same user replaces the first.
- `validateData` accepts a user's contribution. It marks the task
  "completed" and adds the task's reward to the user's balance.
- `getProject`, `getTask`, `getProjectTasks` and `getUserRewards` are
  lookups.

Every operation answers either `Ok(value)` or `Err(message)`.

The model is functional. `Ledger.State` is an immutable record of maps, task
lists and the two counters. Each mutating operation is a function from a
state to the pair (reply, next state). Each lookup takes a state and returns
only its reply, so a lookup cannot change anything.

Files:

- `ledger.dfy`, module `Ledger`: the data model and the eight operations.
  Each operation's contract gives its error cases, its result, and what it
  leaves unchanged. The contracts are stated through the lookups wherever
  the ledger offers one.
- `invariant.dfy`, module `LedgerInvariant`: the state invariant `Valid` and
  the relation `Follows`, which says how a later state relates to an earlier
  one. Also the lemmas showing that every operation keeps both.
- `trace.dfy`, module `LedgerTrace`: arbitrary sequences of calls (`Run`) and
  the facts true of all of them. The invariant always holds, ids come out
  strictly increasing, and a project's task list is exactly the tasks
  created under it, in creation order.
- `scenarios.dfy`, module `LedgerScenarios`: the concrete cases from the
  ledger's test suite, replayed on the model.

Two behaviours of the code are worth stating on their own:

- `validateData` never looks at the task's status
  (tests/citizen-science.test.ts:56-71). So a completed task can be
  validated again, and each successful validation credits the reward again.
  `LedgerInvariant.ValidateTwiceCreditsTwice` proves this.
- A failed `createTask` uses no id, because the task counter is incremented
  only after the project check (tests/citizen-science.test.ts:28-31).
  `Ledger.CreateTask` states this and `LedgerScenarios.FailedTaskConsumesNoId`
  shows it.

## Model

| member | source | states |
|---|---|---|
| `Ledger.Init` | tests/citizen-science.test.ts:94-103 | After a reset both counters are 0. Every project and task lookup reports "not found", every task list is empty, every balance is 0, and every validation fails with "Task not found". |
| `Ledger.CreateProject` | tests/citizen-science.test.ts:16-25 | Always succeeds with the old project counter plus one. The counter becomes that id. `getProject` then returns the new "active" project with the given fields. Lookups of every other project id are unchanged. Tasks, task lists, contributions, balances and the task counter are untouched. |
| `Ledger.CreateTask` | tests/citizen-science.test.ts:27-44 | For an unknown project it answers "Project not found" and returns the very same state, so the task counter does not advance. Otherwise it answers the old task counter plus one. `getTask` then returns the new "open" task, and no other task changes. The project's list becomes the old list with the new id appended at the end, and no other project's list changes. Projects, contributions and balances are untouched. |
| `Ledger.SubmitData` | tests/citizen-science.test.ts:46-54 | An unknown task fails with "Task not found" and a task that is not open fails with "Task is not open". Both failures leave the state unchanged. On success the (task, user) contribution holds the new data, replacing any earlier one. Every other contribution is kept, and no task or balance changes. |
| `Ledger.ValidateData` | tests/citizen-science.test.ts:56-71 | An unknown task fails with "Task not found" and a missing (task, user) contribution fails with "No contribution found". Both failures leave the state unchanged. Otherwise it succeeds whatever the task's status is. That task becomes completed and no other task changes. The user's balance becomes the old balance (0 if absent) plus the task's reward. Other users' balances and everything else are unchanged. |
| `Ledger.GetProject` | tests/citizen-science.test.ts:73-76 | Succeeds exactly when the id is a stored project and returns that project; otherwise fails with "Project not found". |
| `Ledger.GetTask` | tests/citizen-science.test.ts:78-81 | Succeeds exactly when the id is a stored task and returns that task; otherwise fails with "Task not found". |
| `Ledger.GetProjectTasks` | tests/citizen-science.test.ts:83-86 | Never fails; returns the project's stored task list, or the empty list for a project with none recorded. |
| `Ledger.GetUserRewards` | tests/citizen-science.test.ts:88-90 | Never fails; returns the user's balance, or 0 for a user never credited. |
| `LedgerInvariant.InitValid` | tests/citizen-science.test.ts:94-103 | The state after a reset satisfies the invariant. |
| `LedgerInvariant.CreateProjectValid` | tests/citizen-science.test.ts:16-24 | In a valid state the new project id was not in use before, and the invariant still holds afterwards. |
| `LedgerInvariant.CreateProjectFollows` | tests/citizen-science.test.ts:16-24 | Creating a project undoes nothing: counters do not go back and no project, task, task list, contribution or balance is removed or reduced. Beyond that, it changes only the project table and the project counter. |
| `LedgerInvariant.CreateTaskValid` | tests/citizen-science.test.ts:27-43 | In a valid state a new task id was not in use before. The invariant still holds afterwards. In particular the task's project exists, the id is listed only under that project, and that list stays in increasing order. |
| `LedgerInvariant.CreateTaskFollows` | tests/citizen-science.test.ts:27-43 | Creating a task, successful or not, undoes nothing. Existing task lists only grow at the end. |
| `LedgerInvariant.SubmitDataValid` | tests/citizen-science.test.ts:46-54 | Submitting keeps the invariant; every contribution refers to an existing task. |
| `LedgerInvariant.SubmitDataFollows` | tests/citizen-science.test.ts:46-54 | Submitting undoes nothing. The task table is unchanged, so no task status changes, and every user's balance is unchanged. |
| `LedgerInvariant.ValidateDataValid` | tests/citizen-science.test.ts:56-71 | Validating keeps the invariant. |
| `LedgerInvariant.ValidateDataFollows` | tests/citizen-science.test.ts:56-71 | Validating never reopens a task, never changes a task's project, description or reward, and never lowers a balance (rewards being natural numbers). |
| `LedgerInvariant.ProjectTasksExact` | tests/citizen-science.test.ts:39-41 | In a valid state, an id is in `getProjectTasks(p)` exactly when it is a stored task of project `p`. The list is strictly increasing, which is creation order. |
| `LedgerInvariant.ValidateTwiceCreditsTwice` | tests/citizen-science.test.ts:56-71 | Given a task and a contribution to it, validating twice succeeds both times. The task is left completed and the user is credited twice the reward. |
| `LedgerInvariant.NoSubmissionAfterValidation` | tests/citizen-science.test.ts:49-64 | After a successful validation of a task, any user's submission to that task fails with "Task is not open" and changes nothing. |
| `LedgerTrace.Apply` | tests/citizen-science.test.ts:15-91 | For any call: a lookup never changes the state, and neither does any failing call. `createProject` never fails. A successful creation answers its own counter plus one and advances only that counter. Other calls leave both counters alone. A project's task list grows only by the id of a successful `createTask` for that project. |
| `LedgerTrace.Run` | tests/citizen-science.test.ts:15-91 | A sequence of calls, performed in order, answers exactly one reply per call. |
| `LedgerTrace.ApplyValid` | tests/citizen-science.test.ts:15-91 | Every single call keeps the invariant. |
| `LedgerTrace.ApplyFollows` | tests/citizen-science.test.ts:15-91 | Every single call undoes nothing of the state before it. |
| `LedgerTrace.RunValid` | tests/citizen-science.test.ts:15-91 | Every sequence of calls from a valid state ends in a valid state. |
| `LedgerTrace.ReachableValid` | tests/citizen-science.test.ts:94-103 | Every state reachable from a reset is valid. |
| `LedgerTrace.RunFollows` | tests/citizen-science.test.ts:15-91 | Over any sequence of calls no completed task becomes open again, no balance shrinks (rewards are natural numbers in the model; a negative reward, which the source does not reject, would lower a balance), no project or contribution disappears, and task lists only grow at the end. |
| `LedgerTrace.IssuedIdsIncrease` | tests/citizen-science.test.ts:17-31 | Over any sequence of calls, for each counter separately, successful creations answer ids above the counter's starting value and at most its final value. Those ids strictly increase in call order. |
| `LedgerTrace.RunListsCreatedTasks` | tests/citizen-science.test.ts:39-41 | After any sequence of calls, a project's task list is its earlier list followed by exactly the ids that successful `createTask` calls for that project answered, in call order. |
| `LedgerScenarios.FirstProjectIsOne` | tests/citizen-science.test.ts:105-116 | From a reset, the first project gets id 1, is the only project, and is stored "active" with the given fields. |
| `LedgerScenarios.FirstTaskIsOne` | tests/citizen-science.test.ts:118-131 | The first task gets id 1, is the only task, is stored "open", and is listed as `[1]` under project 1. |
| `LedgerScenarios.FailedTaskConsumesNoId` | tests/citizen-science.test.ts:27-31 | A task for a missing project fails with "Project not found" and leaves the reset state unchanged. The next successful task still gets id 1. |
| `LedgerScenarios.TwoTasksListedInOrder` | tests/citizen-science.test.ts:180-187 | Two tasks under project 1 get ids 1 and 2 and are listed as `[1, 2]`. |
| `LedgerScenarios.SightingRewarded` | tests/citizen-science.test.ts:133-153 | Submitting then validating completes the task and gives a balance of 10. A later submission is refused. A second validation gives a balance of 20. |
| `LedgerScenarios.UnknownIdsReported` | tests/citizen-science.test.ts:199-209 | On a fresh ledger, unknown project and task ids are reported with their messages. An unknown project's list is empty and an unknown user's balance is 0. |

## Left out

- The test harness (`describe`, `it`, `expect`, `beforeEach`) is not modelled. The reset is used only to define the initial state `Ledger.Init`.
- The contribution key is the string `${taskId}-${user}`. It is modelled as the pair (task id, user). For the ids the model covers (non-negative integers) this is exact, not an approximation: the decimal form of such an id contains no `-`, so the first `-` in the key always marks where the id ends.
- JavaScript numbers are floats. Ids and rewards are modelled as `nat`, so negative, fractional or very large ids and rewards are not modelled. In particular `createTask` does not reject a negative reward, which would lower a balance on validation; the model's "no balance ever shrinks" rests on this abstraction.
- Statuses are strings in the source. They are modelled as the enumerations `ProjectStatus` and `TaskStatus`, whose values are exactly the ones the source ever stores.
- Object aliasing is not modelled. The source's lookups return live references, and `validateData` changes the stored task object in place. The model returns values.
- Payloads are untyped. The stored contribution `{ data }` is modelled as its data string, and the project and task text fields as plain strings.
- The guard `if (!project)` and its siblings reject only missing entries, because stored entries are always objects and so always truthy. The model tests map membership.
- Balances are stated call by call: each validation adds exactly the task's reward. There is no closed formula for a balance over a whole sequence of calls.
