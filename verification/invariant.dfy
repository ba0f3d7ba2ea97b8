/**
 The ledger's state invariant, the way one state may evolve into the next,
 and the facts each mutating operation keeps.
 */
module LedgerInvariant {
  import opened Ledger

  /** Every stored id was handed out by its counter, so ids run from 1 to the counter. */
  ghost predicate KeysIssued(s: State)
  {
    && (forall p | p in s.projects :: 1 <= p <= s.projectIdNonce)
    && (forall t | t in s.tasks :: 1 <= t <= s.taskIdNonce)
  }

  /** Tasks, task lists and contributions only ever refer to things that exist. */
  ghost predicate ReferencesResolve(s: State)
  {
    && (forall t | t in s.tasks :: s.tasks[t].projectId in s.projects)
    && (forall p | p in s.projectTasks :: p in s.projects)
    && (forall k | k in s.userContributions :: k.0 in s.tasks)
  }

  /** Each id in a project's task list names a task of that very project. */
  ghost predicate IndexSound(s: State)
  {
    forall p, i | p in s.projectTasks && 0 <= i < |s.projectTasks[p]| ::
      s.projectTasks[p][i] in s.tasks && s.tasks[s.projectTasks[p][i]].projectId == p
  }

  /** Each task is listed under the project it belongs to. */
  ghost predicate IndexComplete(s: State)
  {
    forall t | t in s.tasks :: t in TasksOf(s, s.tasks[t].projectId)
  }

  /** Each project's task list is strictly increasing, that is, in creation order. */
  ghost predicate IndexOrdered(s: State)
  {
    forall p, i, j | p in s.projectTasks && 0 <= i < j < |s.projectTasks[p]| ::
      s.projectTasks[p][i] < s.projectTasks[p][j]
  }

  ghost predicate Valid(s: State)
  {
    && KeysIssued(s)
    && ReferencesResolve(s)
    && IndexSound(s)
    && IndexComplete(s)
    && IndexOrdered(s)
  }

  /**
   How a later state relates to an earlier one: counters never go back,
   projects are never changed or removed, a task keeps its project,
   description and reward and never goes from completed back to open, task
   lists only grow at the end, contributions are never withdrawn and no
   balance ever shrinks. That balances never shrink rests on rewards being
   natural numbers here; the ledger itself accepts any number as a reward,
   and a negative one would lower a balance on validation.
   */
  ghost predicate Follows(s: State, s': State)
  {
    && s.projectIdNonce <= s'.projectIdNonce
    && s.taskIdNonce <= s'.taskIdNonce
    && (forall p | p in s.projects :: p in s'.projects && s'.projects[p] == s.projects[p])
    && (forall t | t in s.tasks ::
          && t in s'.tasks
          && s'.tasks[t].(status := Open) == s.tasks[t].(status := Open)
          && (s.tasks[t].status == Completed ==> s'.tasks[t].status == Completed))
    && (forall p | p in s.projectTasks :: p in s'.projectTasks && s.projectTasks[p] <= s'.projectTasks[p])
    && (forall k | k in s.userContributions :: k in s'.userContributions)
    && (forall u :: RewardOf(s, u) <= RewardOf(s', u))
  }

  lemma FollowsReflexive(s: State)
    ensures Follows(s, s)
  {
  }

  lemma FollowsTransitive(s0: State, s1: State, s2: State)
    requires Follows(s0, s1) && Follows(s1, s2)
    ensures Follows(s0, s2)
  {
    forall p | p in s0.projectTasks
      ensures s0.projectTasks[p] <= s2.projectTasks[p]
    {
      assert s0.projectTasks[p] <= s1.projectTasks[p] <= s2.projectTasks[p];
    }
    forall u
      ensures RewardOf(s0, u) <= RewardOf(s2, u)
    {
      assert RewardOf(s0, u) <= RewardOf(s1, u);
    }
  }

  lemma InitValid()
    ensures Valid(Init())
  {
  }

  /** A new project gets an id not used before, and validity is kept. */
  lemma CreateProjectValid(s: State, name: string, description: string, institution: string)
    requires Valid(s)
    ensures var (r, s') := CreateProject(s, name, description, institution);
      r.value !in s.projects && Valid(s')
  {
  }

  /** Creating a project undoes nothing, and changes nothing but the project table and its counter. */
  lemma CreateProjectFollows(s: State, name: string, description: string, institution: string)
    requires KeysIssued(s)
    ensures Follows(s, CreateProject(s, name, description, institution).1)
    ensures CreateProject(s, name, description, institution).1.(projectIdNonce := s.projectIdNonce, projects := s.projects) == s
  {
    assert s.projectIdNonce + 1 !in s.projects;
  }

  /** A new task gets an id not used before, and validity is kept. */
  lemma CreateTaskValid(s: State, projectId: nat, description: string, reward: nat)
    requires Valid(s)
    ensures var (r, s') := CreateTask(s, projectId, description, reward);
      (r.Ok? ==> r.value !in s.tasks) && Valid(s')
  {
    if projectId in s.projects {
      CreateTaskUpdates(s, projectId, description, reward);
      AddTaskValid(s, Task(projectId, description, reward, Open));
    }
  }

  lemma CreateTaskFollows(s: State, projectId: nat, description: string, reward: nat)
    requires KeysIssued(s)
    ensures Follows(s, CreateTask(s, projectId, description, reward).1)
  {
    if projectId in s.projects {
      CreateTaskUpdates(s, projectId, description, reward);
      AddTaskFollows(s, Task(projectId, description, reward, Open));
    } else {
      FollowsReflexive(s);
    }
  }

  /** The state a successful task creation leaves: `task` filed under the next id. */
  ghost function AddTask(s: State, task: Task): State
  {
    var taskId := s.taskIdNonce + 1;
    s.(taskIdNonce := taskId,
       tasks := s.tasks[taskId := task],
       projectTasks := s.projectTasks[task.projectId := TasksOf(s, task.projectId) + [taskId]])
  }

  lemma CreateTaskUpdates(s: State, projectId: nat, description: string, reward: nat)
    requires projectId in s.projects
    ensures CreateTask(s, projectId, description, reward).1
      == AddTask(s, Task(projectId, description, reward, Open))
  {
  }

  lemma AddTaskValid(s: State, task: Task)
    requires Valid(s) && task.projectId in s.projects
    ensures Valid(AddTask(s, task))
  {
    AddTaskIndexSound(s, task);
    AddTaskIndexComplete(s, task);
    AddTaskIndexOrdered(s, task);
  }

  lemma AddTaskIndexSound(s: State, task: Task)
    requires KeysIssued(s) && IndexSound(s)
    ensures IndexSound(AddTask(s, task))
  {
    var s' := AddTask(s, task);
    forall p, i | p in s'.projectTasks && 0 <= i < |s'.projectTasks[p]|
      ensures s'.projectTasks[p][i] in s'.tasks && s'.tasks[s'.projectTasks[p][i]].projectId == p
    {
      if p != task.projectId || i < |TasksOf(s, p)| {
        assert s'.projectTasks[p][i] == s.projectTasks[p][i];
        assert s.projectTasks[p][i] != s'.taskIdNonce;
      }
    }
  }

  lemma AddTaskIndexComplete(s: State, task: Task)
    requires IndexComplete(s)
    ensures IndexComplete(AddTask(s, task))
  {
    var s' := AddTask(s, task);
    forall t | t in s'.tasks
      ensures t in TasksOf(s', s'.tasks[t].projectId)
    {
      if t != s'.taskIdNonce {
        assert t in TasksOf(s, s.tasks[t].projectId);
      }
    }
  }

  lemma AddTaskIndexOrdered(s: State, task: Task)
    requires KeysIssued(s) && IndexSound(s) && IndexOrdered(s)
    ensures IndexOrdered(AddTask(s, task))
  {
    var s' := AddTask(s, task);
    forall p, i, j | p in s'.projectTasks && 0 <= i < j < |s'.projectTasks[p]|
      ensures s'.projectTasks[p][i] < s'.projectTasks[p][j]
    {
      assert s'.projectTasks[p][i] == s.projectTasks[p][i];
      if p != task.projectId || j < |TasksOf(s, p)| {
        assert s'.projectTasks[p][j] == s.projectTasks[p][j];
      }
    }
  }

  lemma AddTaskFollows(s: State, task: Task)
    requires KeysIssued(s)
    ensures Follows(s, AddTask(s, task))
  {
    var s' := AddTask(s, task);
    assert s'.taskIdNonce !in s.tasks;
  }

  lemma SubmitDataValid(s: State, taskId: nat, user: string, data: string)
    requires Valid(s)
    ensures Valid(SubmitData(s, taskId, user, data).1)
  {
    if taskId in s.tasks && s.tasks[taskId].status == Open {
      var s' := SubmitData(s, taskId, user, data).1;
      assert s' == s.(userContributions := s.userContributions[(taskId, user) := data]);
      SameStructurePreserves(s, s');
    }
  }

  /** Submitting undoes nothing, and changes no task and no balance. */
  lemma SubmitDataFollows(s: State, taskId: nat, user: string, data: string)
    ensures Follows(s, SubmitData(s, taskId, user, data).1)
    ensures SubmitData(s, taskId, user, data).1.tasks == s.tasks
    ensures forall u :: RewardOf(SubmitData(s, taskId, user, data).1, u) == RewardOf(s, u)
  {
    var s' := SubmitData(s, taskId, user, data).1;
    assert forall u :: RewardOf(s', u) == RewardOf(s, u);
  }

  lemma ValidateDataValid(s: State, taskId: nat, user: string)
    requires Valid(s)
    ensures Valid(ValidateData(s, taskId, user).1)
  {
    if taskId in s.tasks && (taskId, user) in s.userContributions {
      ValidateDataUpdates(s, taskId, user);
      CompleteAndCreditValid(s, taskId, user, RewardOf(s, user) + s.tasks[taskId].reward);
    }
  }

  lemma ValidateDataFollows(s: State, taskId: nat, user: string)
    ensures Follows(s, ValidateData(s, taskId, user).1)
  {
    if taskId in s.tasks && (taskId, user) in s.userContributions {
      ValidateDataUpdates(s, taskId, user);
      CompleteAndCreditFollows(s, taskId, user, RewardOf(s, user) + s.tasks[taskId].reward);
    } else {
      FollowsReflexive(s);
    }
  }

  /** The state a successful validation leaves: the task completed, the user's balance set. */
  ghost function CompleteAndCredit(s: State, taskId: nat, user: string, balance: nat): State
    requires taskId in s.tasks
  {
    s.(tasks := s.tasks[taskId := s.tasks[taskId].(status := Completed)],
       userRewards := s.userRewards[user := balance])
  }

  lemma ValidateDataUpdates(s: State, taskId: nat, user: string)
    requires taskId in s.tasks && (taskId, user) in s.userContributions
    ensures ValidateData(s, taskId, user).1
      == CompleteAndCredit(s, taskId, user, RewardOf(s, user) + s.tasks[taskId].reward)
  {
  }

  /**
   Two states with the same counters, projects and task lists, the same task
   ids and owners, and contributions only to existing tasks.
   */
  ghost predicate SameStructure(s: State, s': State)
  {
    && s'.projectIdNonce == s.projectIdNonce
    && s'.taskIdNonce == s.taskIdNonce
    && s'.projects == s.projects
    && s'.projectTasks == s.projectTasks
    && s'.tasks.Keys == s.tasks.Keys
    && (forall t | t in s.tasks :: s'.tasks[t].projectId == s.tasks[t].projectId)
    && (forall k | k in s'.userContributions :: k.0 in s.tasks)
  }

  lemma SameStructurePreserves(s: State, s': State)
    requires Valid(s) && SameStructure(s, s')
    ensures Valid(s')
  {
    assert forall p :: TasksOf(s', p) == TasksOf(s, p);
    assert IndexSound(s') by {
      forall p, i | p in s'.projectTasks && 0 <= i < |s'.projectTasks[p]|
        ensures s'.projectTasks[p][i] in s'.tasks && s'.tasks[s'.projectTasks[p][i]].projectId == p
      {
        assert s.projectTasks[p][i] in s.tasks;
      }
    }
  }

  lemma CompleteAndCreditValid(s: State, taskId: nat, user: string, balance: nat)
    requires Valid(s) && taskId in s.tasks
    ensures Valid(CompleteAndCredit(s, taskId, user, balance))
  {
    CompleteAndCreditSameStructure(s, taskId, user, balance);
    SameStructurePreserves(s, CompleteAndCredit(s, taskId, user, balance));
  }

  lemma CompleteAndCreditSameStructure(s: State, taskId: nat, user: string, balance: nat)
    requires taskId in s.tasks && (forall k | k in s.userContributions :: k.0 in s.tasks)
    ensures SameStructure(s, CompleteAndCredit(s, taskId, user, balance))
  {
  }

  lemma CompleteAndCreditFollows(s: State, taskId: nat, user: string, balance: nat)
    requires taskId in s.tasks && RewardOf(s, user) <= balance
    ensures Follows(s, CompleteAndCredit(s, taskId, user, balance))
  {
    var s' := CompleteAndCredit(s, taskId, user, balance);
    assert forall u :: u != user ==> RewardOf(s', u) == RewardOf(s, u);
  }

  /**
   In a valid state a project's task list holds exactly the tasks created
   under that project, each once, in the order they were created.
   */
  lemma ProjectTasksExact(s: State, projectId: nat)
    requires Valid(s)
    ensures var ids := GetProjectTasks(s, projectId).value;
      && (forall t :: t in ids <==> t in s.tasks && s.tasks[t].projectId == projectId)
      && (forall i, j | 0 <= i < j < |ids| :: ids[i] < ids[j])
  {
  }

  /**
   Validation ignores the task's status: a second validation of the same
   (task, user) pair succeeds again and credits the reward a second time.
   */
  lemma ValidateTwiceCreditsTwice(s: State, taskId: nat, user: string)
    requires taskId in s.tasks && (taskId, user) in s.userContributions
    ensures var (r1, s1) := ValidateData(s, taskId, user);
            var (r2, s2) := ValidateData(s1, taskId, user);
      && r1 == Ok(true) && r2 == Ok(true)
      && s1.tasks[taskId].status == Completed
      && RewardOf(s2, user) == RewardOf(s, user) + 2 * s.tasks[taskId].reward
  {
  }

  /** Once a task is completed, every further submission to it is refused. */
  lemma NoSubmissionAfterValidation(s: State, taskId: nat, user: string, other: string, data: string)
    requires ValidateData(s, taskId, user).0.Ok?
    ensures var s1 := ValidateData(s, taskId, user).1;
      SubmitData(s1, taskId, other, data) == (Err(TaskNotOpen), s1)
  {
  }
}
