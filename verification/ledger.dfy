/**
 The citizen-science ledger: projects, the tasks attached to them, per-user
 data submissions and per-user reward balances, kept in one in-memory state.

 Every operation is a pure function. A mutating operation takes the current
 state and returns the pair (reply, next state); a lookup takes the state and
 returns only its reply, so it cannot change anything. A reply is either
 `Ok(value)` or `Err(message)`, with the messages the ledger reports verbatim.
 */
module Ledger {

  /** The uniform reply of every operation: a value or an error message. */
  datatype Result<T> = Ok(value: T) | Err(error: string) {

    /** Applies `f` to a success value and passes an error through unchanged. */
    function MapOk<U>(f: T -> U): (r: Result<U>)
      ensures r.Ok? <==> Ok?
      ensures Ok? ==> r.value == f(value)
      ensures Err? ==> r.error == error
    {
      match this
      case Ok(v) => Ok(f(v))
      case Err(e) => Err(e)
    }
  }

  const ProjectNotFound: string := "Project not found"
  const TaskNotFound: string := "Task not found"
  const TaskNotOpen: string := "Task is not open"
  const NoContribution: string := "No contribution found"

  /** A project is created "active" and no operation ever changes that. */
  datatype ProjectStatus = Active

  /** A task is created "open"; a successful validation marks it "completed". */
  datatype TaskStatus = Open | Completed

  datatype Project = Project(
    name: string,
    description: string,
    institution: string,
    status: ProjectStatus)

  datatype Task = Task(
    projectId: nat,
    description: string,
    reward: nat,
    status: TaskStatus)

  /** A contribution is filed under the task it answers and the user who sent it. */
  type ContributionKey = (nat, string)

  /**
   The whole ledger: two id counters (the last project id and the last task id
   handed out), the projects and tasks by id, each project's task ids in the
   order they were created, the latest payload each user submitted for each
   task, and each user's accumulated reward.
   */
  datatype State = State(
    projectIdNonce: nat,
    taskIdNonce: nat,
    projects: map<nat, Project>,
    tasks: map<nat, Task>,
    projectTasks: map<nat, seq<nat>>,
    userContributions: map<ContributionKey, string>,
    userRewards: map<string, nat>)

  /** The task ids recorded for a project, or none if nothing was recorded. */
  function TasksOf(s: State, projectId: nat): seq<nat>
  {
    if projectId in s.projectTasks then s.projectTasks[projectId] else []
  }

  /** A user's balance; a user never credited has balance 0. */
  function RewardOf(s: State, user: string): nat
  {
    if user in s.userRewards then s.userRewards[user] else 0
  }

  /** The state after a reset: both counters at zero and every table empty. */
  function Init(): (s: State)
    ensures s.projectIdNonce == 0 && s.taskIdNonce == 0
    ensures forall p: nat :: GetProject(s, p) == Err(ProjectNotFound)
    ensures forall t: nat :: GetTask(s, t) == Err(TaskNotFound)
    ensures forall p: nat :: GetProjectTasks(s, p) == Ok([])
    ensures forall u: string :: GetUserRewards(s, u) == Ok(0)
    ensures forall t: nat, u: string :: ValidateData(s, t, u).0 == Err(TaskNotFound)
  {
    State(0, 0, map[], map[], map[], map[], map[])
  }

  /**
   Registers a project under the next project id and answers that id. It
   never fails, and touches nothing but the project table and its counter.
   */
  function CreateProject(s: State, name: string, description: string, institution: string)
    : (r: (Result<nat>, State))
    ensures r.0 == Ok(s.projectIdNonce + 1)
    ensures r.1.projectIdNonce == s.projectIdNonce + 1
    ensures GetProject(r.1, r.0.value) == Ok(Project(name, description, institution, Active))
    ensures forall p: nat :: p != r.0.value ==> GetProject(r.1, p) == GetProject(s, p)
    ensures r.1.(projectIdNonce := s.projectIdNonce, projects := s.projects) == s
  {
    var projectId := s.projectIdNonce + 1;
    var project := Project(name, description, institution, Active);
    (Ok(projectId), s.(projectIdNonce := projectId, projects := s.projects[projectId := project]))
  }

  /**
   Adds an open task to an existing project under the next task id, appends
   that id to the project's task list, and answers the id. For an unknown
   project it reports "Project not found" and leaves the state exactly as it
   was: the task counter only advances once the project is known to exist.
   */
  function CreateTask(s: State, projectId: nat, description: string, reward: nat)
    : (r: (Result<nat>, State))
    ensures projectId !in s.projects ==> r == (Err(ProjectNotFound), s)
    ensures projectId in s.projects ==>
      && r.0 == Ok(s.taskIdNonce + 1)
      && r.1.taskIdNonce == s.taskIdNonce + 1
      && GetTask(r.1, r.0.value) == Ok(Task(projectId, description, reward, Open))
      && (forall t: nat :: t != r.0.value ==> GetTask(r.1, t) == GetTask(s, t))
      && GetProjectTasks(r.1, projectId) == Ok(TasksOf(s, projectId) + [r.0.value])
      && (forall p: nat :: p != projectId ==> GetProjectTasks(r.1, p) == GetProjectTasks(s, p))
      && r.1.(taskIdNonce := s.taskIdNonce, tasks := s.tasks, projectTasks := s.projectTasks) == s
  {
    if projectId !in s.projects then
      (Err(ProjectNotFound), s)
    else
      var taskId := s.taskIdNonce + 1;
      var task := Task(projectId, description, reward, Open);
      var list := TasksOf(s, projectId) + [taskId];
      (Ok(taskId), s.(taskIdNonce := taskId,
                      tasks := s.tasks[taskId := task],
                      projectTasks := s.projectTasks[projectId := list]))
  }

  /**
   Records `data` as `user`'s contribution to an open task, replacing any
   earlier one from the same user for the same task. It fails with
   "Task not found" for an unknown task and "Task is not open" for a
   completed one; on success no task and no balance changes.
   */
  function SubmitData(s: State, taskId: nat, user: string, data: string)
    : (r: (Result<bool>, State))
    ensures taskId !in s.tasks ==> r == (Err(TaskNotFound), s)
    ensures taskId in s.tasks && s.tasks[taskId].status != Open ==> r == (Err(TaskNotOpen), s)
    ensures taskId in s.tasks && s.tasks[taskId].status == Open ==>
      && r.0 == Ok(true)
      && r.1.userContributions.Keys == s.userContributions.Keys + {(taskId, user)}
      && r.1.userContributions[(taskId, user)] == data
      && (forall k | k in s.userContributions && k != (taskId, user) ::
            r.1.userContributions[k] == s.userContributions[k])
      && r.1.(userContributions := s.userContributions) == s
  {
    if taskId !in s.tasks then
      (Err(TaskNotFound), s)
    else if s.tasks[taskId].status != Open then
      (Err(TaskNotOpen), s)
    else
      (Ok(true), s.(userContributions := s.userContributions[(taskId, user) := data]))
  }

  /**
   Accepts `user`'s contribution to a task: marks the task completed and adds
   the task's reward to the user's balance. It fails with "Task not found"
   for an unknown task and "No contribution found" when the user submitted
   nothing for it. The task's current status is NOT consulted, so validating
   an already completed task succeeds and credits the reward once more.
   */
  function ValidateData(s: State, taskId: nat, user: string): (r: (Result<bool>, State))
    ensures taskId !in s.tasks ==> r == (Err(TaskNotFound), s)
    ensures taskId in s.tasks && (taskId, user) !in s.userContributions ==>
      r == (Err(NoContribution), s)
    ensures taskId in s.tasks && (taskId, user) in s.userContributions ==>
      && r.0 == Ok(true)
      && GetTask(r.1, taskId) == Ok(s.tasks[taskId].(status := Completed))
      && (forall t: nat :: t != taskId ==> GetTask(r.1, t) == GetTask(s, t))
      && GetUserRewards(r.1, user) == Ok(RewardOf(s, user) + s.tasks[taskId].reward)
      && (forall u :: u != user ==> GetUserRewards(r.1, u) == GetUserRewards(s, u))
      && r.1.(tasks := s.tasks, userRewards := s.userRewards) == s
  {
    if taskId !in s.tasks then
      (Err(TaskNotFound), s)
    else if (taskId, user) !in s.userContributions then
      (Err(NoContribution), s)
    else
      var task := s.tasks[taskId].(status := Completed);
      var balance := RewardOf(s, user) + task.reward;
      (Ok(true), s.(tasks := s.tasks[taskId := task], userRewards := s.userRewards[user := balance]))
  }

  /** The project stored under an id, or "Project not found". */
  function GetProject(s: State, projectId: nat): (r: Result<Project>)
    ensures r.Ok? <==> projectId in s.projects
    ensures r.Ok? ==> r.value == s.projects[projectId]
    ensures r.Err? ==> r.error == ProjectNotFound
  {
    if projectId in s.projects then Ok(s.projects[projectId]) else Err(ProjectNotFound)
  }

  /** The task stored under an id, or "Task not found". */
  function GetTask(s: State, taskId: nat): (r: Result<Task>)
    ensures r.Ok? <==> taskId in s.tasks
    ensures r.Ok? ==> r.value == s.tasks[taskId]
    ensures r.Err? ==> r.error == TaskNotFound
  {
    if taskId in s.tasks then Ok(s.tasks[taskId]) else Err(TaskNotFound)
  }

  /** A project's task ids in creation order; never fails, empty when unknown. */
  function GetProjectTasks(s: State, projectId: nat): (r: Result<seq<nat>>)
    ensures r.Ok?
    ensures projectId !in s.projectTasks ==> r.value == []
    ensures projectId in s.projectTasks ==> r.value == s.projectTasks[projectId]
  {
    Ok(TasksOf(s, projectId))
  }

  /** A user's reward balance; never fails, 0 for a user never credited. */
  function GetUserRewards(s: State, user: string): (r: Result<nat>)
    ensures r.Ok?
    ensures user !in s.userRewards ==> r.value == 0
    ensures user in s.userRewards ==> r.value == s.userRewards[user]
  {
    Ok(RewardOf(s, user))
  }
}
