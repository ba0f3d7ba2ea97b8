/**
 Sequences of calls against the ledger. A `Call` names one of the eight
 operations with its arguments; `Apply` performs it and `Run` performs a
 whole sequence, collecting the replies. The lemmas here are the facts that
 hold of every sequence of calls: the invariant is kept, no state ever
 undoes an earlier one, ids come out strictly increasing, and a project's
 task list is exactly the ids created under it, in the order of creation.
 */
module LedgerTrace {
  import opened Ledger
  import opened LedgerInvariant

  datatype Call =
    | NewProject(name: string, description: string, institution: string)
    | NewTask(projectId: nat, description: string, reward: nat)
    | Submit(taskId: nat, user: string, data: string)
    | Validate(taskId: nat, user: string)
    | LookUpProject(projectId: nat)
    | LookUpTask(taskId: nat)
    | ListProjectTasks(projectId: nat)
    | LookUpRewards(user: string)
  {
    /** The four calls that only read the ledger. */
    predicate IsLookup()
    {
      LookUpProject? || LookUpTask? || ListProjectTasks? || LookUpRewards?
    }
  }

  /** What a successful call answers. */
  datatype Value =
    | Id(id: nat)
    | Done(done: bool)
    | ProjectValue(project: Project)
    | TaskValue(task: Task)
    | TaskIds(taskIds: seq<nat>)
    | Balance(balance: nat)

  /** The two independent id counters. */
  datatype Counter = ProjectCounter | TaskCounter

  function NonceOf(s: State, k: Counter): nat
  {
    match k
    case ProjectCounter => s.projectIdNonce
    case TaskCounter => s.taskIdNonce
  }

  /** The call that draws its id from counter `k`. */
  predicate Allocates(c: Call, k: Counter)
  {
    match k
    case ProjectCounter => c.NewProject?
    case TaskCounter => c.NewTask?
  }

  /** The id a call added to project `p`'s task list, as a list of zero or one ids. */
  function TaskIdCreated(c: Call, reply: Result<Value>, p: nat): seq<nat>
  {
    if c.NewTask? && c.projectId == p && reply.Ok? && reply.value.Id? then [reply.value.id] else []
  }

  /**
   Performs one call. Lookups never change the state, and neither does any
   call that fails. A creation that succeeds answers the next value of its
   own counter and advances only that counter; it is the only way a
   project's task list grows, and then by that one id at the end.
   */
  function Apply(s: State, c: Call): (r: (Result<Value>, State))
    ensures c.IsLookup() ==> r.1 == s
    ensures r.0.Err? ==> r.1 == s
    ensures c.NewProject? ==> r.0.Ok?
    ensures forall k :: Allocates(c, k) && r.0.Ok? ==>
      r.0 == Ok(Id(NonceOf(s, k) + 1)) && NonceOf(r.1, k) == NonceOf(s, k) + 1
    ensures forall k :: !Allocates(c, k) ==> NonceOf(r.1, k) == NonceOf(s, k)
    ensures forall p: nat :: TasksOf(r.1, p) == TasksOf(s, p) + TaskIdCreated(c, r.0, p)
  {
    match c
    case NewProject(name, description, institution) =>
      var (reply, s') := CreateProject(s, name, description, institution);
      (reply.MapOk(id => Id(id)), s')
    case NewTask(projectId, description, reward) =>
      var (reply, s') := CreateTask(s, projectId, description, reward);
      (reply.MapOk(id => Id(id)), s')
    case Submit(taskId, user, data) =>
      var (reply, s') := SubmitData(s, taskId, user, data);
      (reply.MapOk(b => Done(b)), s')
    case Validate(taskId, user) =>
      var (reply, s') := ValidateData(s, taskId, user);
      (reply.MapOk(b => Done(b)), s')
    case LookUpProject(projectId) =>
      (GetProject(s, projectId).MapOk(p => ProjectValue(p)), s)
    case LookUpTask(taskId) =>
      (GetTask(s, taskId).MapOk(t => TaskValue(t)), s)
    case ListProjectTasks(projectId) =>
      (GetProjectTasks(s, projectId).MapOk(ids => TaskIds(ids)), s)
    case LookUpRewards(user) =>
      (GetUserRewards(s, user).MapOk(n => Balance(n)), s)
  }

  /** Performs the calls in order, answering one reply per call. */
  function Run(s: State, calls: seq<Call>): (r: (seq<Result<Value>>, State))
    ensures |r.0| == |calls|
    decreases |calls|
  {
    if calls == [] then
      ([], s)
    else
      var (reply, s1) := Apply(s, calls[0]);
      var (replies, s') := Run(s1, calls[1..]);
      ([reply] + replies, s')
  }

  lemma ApplyValid(s: State, c: Call)
    requires Valid(s)
    ensures Valid(Apply(s, c).1)
  {
    match c
    case NewProject(name, description, institution) =>
      CreateProjectValid(s, name, description, institution);
    case NewTask(projectId, description, reward) =>
      CreateTaskValid(s, projectId, description, reward);
    case Submit(taskId, user, data) =>
      SubmitDataValid(s, taskId, user, data);
    case Validate(taskId, user) =>
      ValidateDataValid(s, taskId, user);
    case _ =>
  }

  lemma ApplyFollows(s: State, c: Call)
    requires KeysIssued(s)
    ensures Follows(s, Apply(s, c).1)
  {
    match c
    case NewProject(name, description, institution) =>
      CreateProjectFollows(s, name, description, institution);
    case NewTask(projectId, description, reward) =>
      CreateTaskFollows(s, projectId, description, reward);
    case Submit(taskId, user, data) =>
      SubmitDataFollows(s, taskId, user, data);
    case Validate(taskId, user) =>
      ValidateDataFollows(s, taskId, user);
    case _ =>
      FollowsReflexive(s);
  }

  /** Every sequence of calls keeps the invariant. */
  lemma {:induction false} RunValid(s: State, calls: seq<Call>)
    requires Valid(s)
    ensures Valid(Run(s, calls).1)
    decreases |calls|
  {
    if calls != [] {
      ApplyValid(s, calls[0]);
      RunValid(Apply(s, calls[0]).1, calls[1..]);
    }
  }

  /** Every state reachable from a reset satisfies the invariant. */
  lemma ReachableValid(calls: seq<Call>)
    ensures Valid(Run(Init(), calls).1)
  {
    InitValid();
    RunValid(Init(), calls);
  }

  /**
   A later state never undoes an earlier one: in particular no completed
   task is ever open again and no balance ever shrinks (the latter because
   rewards are natural numbers in this model).
   */
  lemma {:induction false} RunFollows(s: State, calls: seq<Call>)
    requires Valid(s)
    ensures Follows(s, Run(s, calls).1)
    decreases |calls|
  {
    if calls == [] {
      FollowsReflexive(s);
    } else {
      var s1 := Apply(s, calls[0]).1;
      ApplyFollows(s, calls[0]);
      ApplyValid(s, calls[0]);
      RunFollows(s1, calls[1..]);
      FollowsTransitive(s, s1, Run(s1, calls[1..]).1);
    }
  }

  /**
   Ids from each counter come out strictly increasing, above the counter's
   value at the start and at most its value at the end; project ids and task
   ids are drawn independently.
   */
  lemma {:induction false} IssuedIdsIncrease(s: State, calls: seq<Call>, k: Counter)
    ensures NonceOf(s, k) <= NonceOf(Run(s, calls).1, k)
    ensures forall i | 0 <= i < |calls| && Allocates(calls[i], k) && Run(s, calls).0[i].Ok? ::
      && Run(s, calls).0[i].value.Id?
      && NonceOf(s, k) < Run(s, calls).0[i].value.id <= NonceOf(Run(s, calls).1, k)
    ensures forall i, j | 0 <= i < j < |calls| && Allocates(calls[i], k) && Allocates(calls[j], k)
                          && Run(s, calls).0[i].Ok? && Run(s, calls).0[j].Ok? ::
      Run(s, calls).0[i].value.id < Run(s, calls).0[j].value.id
    decreases |calls|
  {
    if calls != [] {
      var (reply, s1) := Apply(s, calls[0]);
      var rest := calls[1..];
      IssuedIdsIncrease(s1, rest, k);
      var (replies, s') := Run(s1, rest);
      assert Run(s, calls).0 == [reply] + replies;
      assert Run(s, calls).1 == s';
      assert NonceOf(s, k) <= NonceOf(s1, k);
      forall i | 0 < i < |calls|
        ensures Run(s, calls).0[i] == replies[i - 1]
      {
      }
    }
  }

  /** The ids of the tasks the calls created under project `p`, in call order. */
  function IdsCreatedUnder(calls: seq<Call>, replies: seq<Result<Value>>, p: nat): seq<nat>
    requires |calls| == |replies|
  {
    if calls == [] then []
    else TaskIdCreated(calls[0], replies[0], p) + IdsCreatedUnder(calls[1..], replies[1..], p)
  }

  /**
   A project's task list after a sequence of calls is its list before,
   followed by exactly the ids the calls created under that project, in the
   order they were created.
   */
  lemma {:induction false} RunListsCreatedTasks(s: State, calls: seq<Call>, p: nat)
    ensures TasksOf(Run(s, calls).1, p) == TasksOf(s, p) + IdsCreatedUnder(calls, Run(s, calls).0, p)
    decreases |calls|
  {
    if calls != [] {
      var (reply, s1) := Apply(s, calls[0]);
      RunListsCreatedTasks(s1, calls[1..], p);
      RunStep(s, calls);
      var replies := Run(s1, calls[1..]).0;
      assert ([reply] + replies)[1..] == replies;
      ConcatAssociative(TasksOf(s, p), TaskIdCreated(calls[0], reply, p), IdsCreatedUnder(calls[1..], replies, p));
    }
  }

  lemma ConcatAssociative(a: seq<nat>, b: seq<nat>, c: seq<nat>)
    ensures (a + b) + c == a + (b + c)
  {
  }

  /** One step of `Run`: the first call's reply, then the rest run from its state. */
  lemma RunStep(s: State, calls: seq<Call>)
    requires calls != []
    ensures var (reply, s1) := Apply(s, calls[0]);
      Run(s, calls) == ([reply] + Run(s1, calls[1..]).0, Run(s1, calls[1..]).1)
  {
  }
}
