/**
 The concrete runs the ledger's own test suite pins down, replayed on the
 model from the state after a reset.
 */
module LedgerScenarios {
  import opened Ledger

  const BirdStudy: string := "Bird Migration Study"
  const BirdStudyAbout: string := "Track bird migration patterns"
  const Sightings: string := "Record bird sightings"
  const Robins: string := "Spotted 5 robins at coordinates 40.7128° N, 74.0060° W"

  /** From a reset, the first project gets id 1 and is stored active. */
  lemma FirstProjectIsOne()
    ensures var (r, s) := CreateProject(Init(), BirdStudy, BirdStudyAbout, "institution1");
      && r == Ok(1)
      && s.projects.Keys == {1}
      && GetProject(s, 1) == Ok(Project(BirdStudy, BirdStudyAbout, "institution1", Active))
  {
  }

  /** The first task of the first project gets id 1, is open, and is listed under it. */
  lemma FirstTaskIsOne()
    ensures var s1 := CreateProject(Init(), BirdStudy, BirdStudyAbout, "institution1").1;
            var r := CreateTask(s1, 1, Sightings, 10);
      && r.0 == Ok(1)
      && r.1.tasks.Keys == {1}
      && GetTask(r.1, 1) == Ok(Task(1, Sightings, 10, Open))
      && GetProjectTasks(r.1, 1) == Ok([1])
  {
    var s1 := CreateProject(Init(), BirdStudy, BirdStudyAbout, "institution1").1;
    assert TasksOf(s1, 1) == [];
    assert TasksOf(CreateTask(s1, 1, Sightings, 10).1, 1) == [1];
  }

  /** A task for a project that does not exist consumes no id. */
  lemma FailedTaskConsumesNoId()
    ensures var (r0, s0) := CreateTask(Init(), 1, Sightings, 10);
            var (_, s1) := CreateProject(s0, BirdStudy, BirdStudyAbout, "institution1");
            var (r2, _) := CreateTask(s1, 1, Sightings, 10);
      && r0 == Err(ProjectNotFound)
      && s0 == Init()
      && r2 == Ok(1)
  {
  }

  /** Two tasks under one project are listed in creation order. */
  lemma TwoTasksListedInOrder()
    ensures var s1 := CreateProject(Init(), BirdStudy, BirdStudyAbout, "institution1").1;
            var s2 := CreateTask(s1, 1, Sightings, 10).1;
            var r := CreateTask(s2, 1, "Analyze migration patterns", 20);
      r.0 == Ok(2) && GetProjectTasks(r.1, 1) == Ok([1, 2])
  {
    var s1 := CreateProject(Init(), BirdStudy, BirdStudyAbout, "institution1").1;
    assert TasksOf(s1, 1) == [];
    var s2 := CreateTask(s1, 1, Sightings, 10).1;
    assert TasksOf(s2, 1) == [1];
    assert TasksOf(CreateTask(s2, 1, "Analyze migration patterns", 20).1, 1) == [1, 2];
  }

  /**
   Submitting and validating a sighting completes the task and credits the
   reward of 10; validating it a second time credits another 10.
   */
  lemma SightingRewarded()
    ensures var (_, s1) := CreateProject(Init(), BirdStudy, BirdStudyAbout, "institution1");
            var (_, s2) := CreateTask(s1, 1, Sightings, 10);
            var (r3, s3) := SubmitData(s2, 1, "user1", Robins);
            var (r4, s4) := ValidateData(s3, 1, "user1");
            var (r5, s5) := ValidateData(s4, 1, "user1");
      && r3 == Ok(true)
      && s3.userContributions[(1, "user1")] == Robins
      && r4 == Ok(true)
      && GetTask(s4, 1).value.status == Completed
      && GetUserRewards(s4, "user1") == Ok(10)
      && r5 == Ok(true)
      && GetUserRewards(s5, "user1") == Ok(20)
      && SubmitData(s4, 1, "user2", Robins).0 == Err(TaskNotOpen)
  {
  }

  /** Unknown ids are reported, not fatal; unknown lists and balances are empty. */
  lemma UnknownIdsReported()
    ensures GetProject(Init(), 999) == Err(ProjectNotFound)
    ensures GetTask(Init(), 999) == Err(TaskNotFound)
    ensures GetProjectTasks(Init(), 999) == Ok([])
    ensures GetUserRewards(Init(), "user1") == Ok(0)
    ensures SubmitData(Init(), 999, "user1", Robins).0 == Err(TaskNotFound)
  {
  }
}
