/** From any state, a run that takes a new development task all the way to publishing. */
module WorkflowPipeline {
  import opened Workflow
  import opened WorkflowInvariant
  import opened WorkflowRuns
  import opened WorkflowSignOffs

  /** Task `id` of the project has come to `status`, and nothing was done to releases and sign-offs since `start`. */
  predicate At(start: Desk, s: Desk, id: nat, project: string, status: Status) {
    && DevIn(s, id, status)
    && s.releases == start.releases && s.uats == start.uats
    && s.requiredChecks == []
    && project in s.projects && s.projects[project] == ProjectOf(start, project)
    && var t := s.tasks[id];
       && t.category == "Development" && t.project == project && t.assignedTo.Some?
       && t.ticket.None? && t.release.None? && !t.clientVisible
       && (status == CodeReview ==> t.pr.Some? && t.checks.Some?)
       && (status == ReadyForQa ==> t.staging)
  }

  /** A task without a ticket, moved by the engine. */
  lemma Moves(start: Desk, s: Desk, id: nat, project: string, to: Status)
    requires id < |s.tasks| && At(start, s, id, project, s.tasks[id].status)
    requires to in {InProgress, DevCompleted, CodeReview, ReadyForQa, TestingStaging, ReadyToPublish}
    ensures At(start, Transition(s, id, to), id, project, to)
    ensures to == TestingStaging ==>
      exists kind :: kind != Live && Transition(s, id, to).qas == s.qas + [Qa(id, None, kind, QaPending)]
  {
    if to == TestingStaging {
      var from := s.tasks[id].status;
      var kind := if from == FixSubmitted || from == ReturnedToDev then Retest else FirstTest;
      assert Transition(s, id, to).qas == s.qas + [Qa(id, None, kind, QaPending)];
    }
  }

  lemma Passes(start: Desk, s: Desk, id: nat, project: string)
    requires At(start, s, id, project, TestingStaging)
    ensures At(start, Transition(s, id, QaPassed), id, project, ReadyToPublish)
  {
    hide Effects;
    var moved := WithTask(s, id, Moved(s.tasks[id], QaPassed));
    assert Transition(s, id, QaPassed) == Transition(moved, id, ReadyToPublish);
    assert id < |moved.tasks| && moved.tasks[id].status == QaPassed;
    Moves(start, moved, id, project, ReadyToPublish);
  }

  lemma Begin(start: Desk, project: string) returns (s: Desk, id: nat)
    requires Good(start)
    ensures Good(s) && Leads(start, s) && At(start, s, id, project, Assigned)
  {
    hide Good;
    var a1 := OnRelease(EditChecks([]));
    var s1 := Apply(start, a1);
    Press(start, a1);
    var a2 := OnRelease(EditProject(project, ProjectOf(start, project)));
    var s2 := Apply(s1, a2);
    Press(s1, a2);
    var a3 := OnTask(CreateTask(project, "Development", false, Some("u_priya"), None, false));
    s := Apply(s2, a3);
    Press(s2, a3);
    id := |start.tasks|;
    hide Leads;
    LeadsTrans(start, s1, s2);
    LeadsTrans(start, s2, s);
  }

  lemma Develop(start: Desk, s: Desk, id: nat, project: string) returns (end: Desk)
    requires Good(s) && Leads(start, s) && At(start, s, id, project, Assigned)
    ensures Good(end) && Leads(start, end) && At(start, end, id, project, CodeReview)
  {
    hide Good, Leads, Transition;
    Press(s, OnTask(Start(id)));
    var s1 := Transition(s, id, InProgress);
    Moves(start, s, id, project, InProgress);
    LeadsTrans(start, s, s1);
    var w1 := WithTask(s1, id, s1.tasks[id].(clientVisible := false));
    Press(s1, OnTask(DevComplete(id, false)));
    var s2 := Transition(w1, id, DevCompleted);
    Moves(start, w1, id, project, DevCompleted);
    LeadsTrans(start, s1, s2);
    var w2 := WithTask(s2, id, s2.tasks[id].(reviewer := None));
    Press(s2, OnTask(RequestReview(id, None)));
    end := Transition(w2, id, CodeReview);
    Moves(start, w2, id, project, CodeReview);
    LeadsTrans(start, s2, end);
  }

  lemma Review(start: Desk, s: Desk, id: nat, project: string) returns (end: Desk)
    requires Good(s) && Leads(start, s) && At(start, s, id, project, CodeReview)
    ensures Good(end) && Leads(start, end) && At(start, end, id, project, ReadyForQa)
  {
    hide Good, Leads, Transition, ReviewTask;
    var s1 := WithTask(s, id, s.tasks[id].(pr := Some(PrApproved), reviewApproved := true));
    var found := ReviewTask(s1.tasks, id);
    assert found != Some(id);
    var s2 := Finish(s1, found);
    assert At(start, s2, id, project, CodeReview);
    Press(s, OnTask(ApproveReview(id)));
    assert ChecksOk(s, s.tasks[id]);
    end := Transition(s2, id, ReadyForQa);
    Moves(start, s2, id, project, ReadyForQa);
    LeadsTrans(start, s, end);
  }

  lemma Test(start: Desk, s: Desk, id: nat, project: string) returns (end: Desk)
    requires Good(s) && Leads(start, s) && At(start, s, id, project, ReadyForQa)
    ensures Good(end) && Leads(start, end) && At(start, end, id, project, ReadyToPublish)
  {
    hide Good, Leads, Transition;
    Press(s, OnTask(SendForTesting(id)));
    var s1 := Transition(s, id, TestingStaging);
    Moves(start, s, id, project, TestingStaging);
    LeadsTrans(start, s, s1);
    var kind :| kind != Live && s1.qas == s.qas + [Qa(id, None, kind, QaPending)];
    var q := |s.qas|;
    assert s1.qas[q] == Qa(id, None, kind, QaPending);
    Press(s1, OnTest(TestResult(q, true)));
    var s2 := SetQa(s1, q, QaOk);
    end := Transition(s2, id, QaPassed);
    Passes(start, s2, id, project);
    LeadsTrans(start, s1, end);
  }

  /** Main: whatever the state, ten buttons take a new task of any project to ready-to-publish and touch no release. */
  lemma ReadyTaskFromAnywhere(start: Desk, project: string) returns (end: Desk, id: nat)
    requires Good(start)
    ensures Good(end) && Leads(start, end) && At(start, end, id, project, ReadyToPublish)
  {
    hide Good, Leads, At;
    var s1, created := Begin(start, project);
    var s2 := Develop(start, s1, created, project);
    var s3 := Review(start, s2, created, project);
    end := Test(start, s3, created, project);
    id := created;
  }
}
