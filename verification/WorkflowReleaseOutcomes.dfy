/** What each release button makes of the release, its tasks and its approvals. */
module WorkflowReleaseOutcomes {
  import opened Workflow
  import opened WorkflowInvariant
  import opened WorkflowSteps
  import opened WorkflowRuns
  import opened WorkflowEngine
  import opened WorkflowOutcomes

  // ----- creating and filling a release -----

  /** The tasks that a new release of the project takes in. */
  predicate IsReady(t: Task, project: string) {
    t.project == project && t.status == ReadyToPublish && t.release.None?
  }

  /** A new release is a draft with every approval open; it takes in exactly the ready tasks of its project, if any
      were asked for. */
  ghost predicate CreationShows(s: Desk, after: Desk, project: string, includeReady: bool)
    requires project in s.projects
  {
    var r, p := |s.releases|, s.projects[project];
    && |after.releases| == r + 1 && after.releases[..r] == s.releases
    && var rel := after.releases[r];
       && rel.project == project && rel.status == DraftRelease && rel.uatStatus.None? && rel.uatRequired == p.uatRequired
       && (forall k :: k in rel.approvals <==> k in p.approvers) && (forall k :: k in rel.approvals ==> !rel.approvals[k])
       && (forall id: nat :: id in rel.tasks <==> includeReady && id < |s.tasks| && IsReady(s.tasks[id], project))
       && |after.tasks| == |s.tasks|
       && forall j :: 0 <= j < |s.tasks| ==>
            after.tasks[j] ==
              if includeReady && IsReady(s.tasks[j], project) then s.tasks[j].(release := Some(r)) else s.tasks[j]
  }

  /** Main: the button shows exactly that. */
  lemma CreatingMeans(s: Desk, project: string, includeReady: bool)
    requires ReleaseOffered(s, CreateRelease(project, includeReady))
    ensures CreationShows(s, ApplyRelease(s, CreateRelease(project, includeReady)), project, includeReady)
  {
    hide ReadyTasks, Stamped, IsReady;
    StampedReady(s.tasks, project, |s.releases|);
    assert !includeReady ==> Stamped(s.tasks, [], |s.releases|) == s.tasks by { StampedNone(s.tasks, |s.releases|); }
  }

  lemma StampedNone(tasks: seq<Task>, r: nat)
    ensures Stamped(tasks, [], r) == tasks
  {
  }

  /** The ready tasks, and what stamping them does to every row. */
  lemma StampedReady(tasks: seq<Task>, project: string, r: nat)
    ensures var ids := ReadyTasks(tasks, project, |tasks|);
      && (forall id: nat :: id in ids <==> id < |tasks| && IsReady(tasks[id], project))
      && forall j :: 0 <= j < |tasks| ==>
           Stamped(tasks, ids, r)[j] == if IsReady(tasks[j], project) then tasks[j].(release := Some(r)) else tasks[j]
  {
    var ids := ReadyTasks(tasks, project, |tasks|);
    ReadyTasksAreReady(tasks, project, |tasks|);
    hide ReadyTasks, Stamped;
    assert forall k :: 0 <= k < |ids| ==> ids[k] in ids;
    forall j | 0 <= j < |tasks|
      ensures Stamped(tasks, ids, r)[j] == if IsReady(tasks[j], project) then tasks[j].(release := Some(r)) else tasks[j]
    {
      StampedAt(tasks, ids, r, j);
    }
  }

  /** A task added to a release comes last in it; an approved release has all its approvals to get again. */
  ghost predicate AdditionShows(s: Desk, after: Desk, id: nat, r: nat)
    requires id < |s.tasks| && r < |s.releases|
  {
    var rel := s.releases[r];
    && after.tasks == s.tasks[id := s.tasks[id].(release := Some(r))]
    && |after.releases| == |s.releases| && after.releases == s.releases[r := after.releases[r]]
    && var now := after.releases[r];
       && now.tasks == rel.tasks + [id] && now.project == rel.project
       && now.uatRequired == rel.uatRequired && now.uatStatus == rel.uatStatus
       && now.approvals.Keys == rel.approvals.Keys
       && if rel.status == ReleaseApproved
          then now.status == ApprovalRequested && forall k :: k in now.approvals ==> !now.approvals[k]
          else now.status == rel.status && now.approvals == rel.approvals
  }

  /** Main: the button shows exactly that. */
  lemma AddingMeans(s: Desk, id: nat, r: nat)
    requires ReleaseOffered(s, AddToRelease(id, r))
    ensures AdditionShows(s, ApplyRelease(s, AddToRelease(id, r)), id, r)
  {
  }

  // ----- approvals -----

  /** Who is asked for an approval. */
  predicate IsAsked(p: Project, key: string, user: string) {
    || (key == "senior" && p.senior == Some(user))
    || (key == "pm" && user == "u_anita")
    || (key == "qa" && p.tester == Some(user))
    || (key == "director" && user == "u_rahul")
  }

  function AskedTask(user: string, project: string, r: nat): Task {
    Task(Mgmt, "Release Approval", Assigned, None, project, Some(user), None, None, Some(r), None,
         false, None, None, false, false, false, [])
  }

  /** The task of one of these approvers. */
  ghost predicate IsDue(p: Project, keys: seq<string>, t: Task, project: string, r: nat) {
    exists key, user :: key in keys && IsAsked(p, key, user) && t == AskedTask(user, project, r)
  }

  lemma UserIsAsked(p: Project, key: string, user: string)
    ensures ApproverUser(p, key) == Some(user) <==> IsAsked(p, key, user)
  {
  }

  /** Every approver but the client gets one task, and nobody else does. */
  lemma {:induction false} ApproversAreAsked(s: Desk, keys: seq<string>, p: Project, project: string, r: nat)
    ensures var after := ApprovalTasks(s, keys, p, project, r);
      && |s.tasks| <= |after.tasks| <= |s.tasks| + |keys| && after.tasks[..|s.tasks|] == s.tasks
      && (forall j :: |s.tasks| <= j < |after.tasks| ==>
            IsDue(p, keys, after.tasks[j], project, r))
      && (forall key, user :: key in keys && IsAsked(p, key, user) ==> AskedTask(user, project, r) in after.tasks[|s.tasks|..])
    decreases |keys|
  {
    hide IsAsked, AskedTask, ApproverUser, IsDue;
    if keys != [] {
      var user := ApproverUser(p, keys[0]);
      var s1 := OneAsked(s, keys[0], p, project, r);
      ApproversAreAsked(s1, keys[1..], p, project, r);
      var after := ApprovalTasks(s, keys, p, project, r);
      AskedOneMore(s, s1, after, keys, p, project, r);
    }
  }

  /** The first approver's task. */
  lemma OneAsked(s: Desk, key: string, p: Project, project: string, r: nat) returns (s1: Desk)
    ensures var user := ApproverUser(p, key);
      s1 == if user.None? then s
            else s.(tasks := s.tasks + [MgmtTask("Release Approval", user, project, None).(release := Some(r))])
    ensures |s.tasks| <= |s1.tasks| <= |s.tasks| + 1 && s1.tasks[..|s.tasks|] == s.tasks
    ensures |s1.tasks| > |s.tasks| ==>
      exists user :: IsAsked(p, key, user) && s1.tasks[|s.tasks|] == AskedTask(user, project, r)
    ensures forall user :: IsAsked(p, key, user) ==> |s1.tasks| > |s.tasks| && s1.tasks[|s.tasks|] == AskedTask(user, project, r)
  {
    var user := ApproverUser(p, key);
    s1 := if user.None? then s
      else s.(tasks := s.tasks + [MgmtTask("Release Approval", user, project, None).(release := Some(r))]);
    forall u ensures ApproverUser(p, key) == Some(u) <==> IsAsked(p, key, u) {
      UserIsAsked(p, key, u);
    }
    if user.Some? {
      assert IsAsked(p, key, user.value);
    }
  }

  lemma AskedOneMore(s: Desk, s1: Desk, after: Desk, keys: seq<string>, p: Project, project: string, r: nat)
    requires keys != []
    requires |s.tasks| <= |s1.tasks| <= |s.tasks| + 1 && s1.tasks[..|s.tasks|] == s.tasks
    requires |s1.tasks| > |s.tasks| ==>
      exists user :: IsAsked(p, keys[0], user) && s1.tasks[|s.tasks|] == AskedTask(user, project, r)
    requires forall user :: IsAsked(p, keys[0], user) ==>
      |s1.tasks| > |s.tasks| && s1.tasks[|s.tasks|] == AskedTask(user, project, r)
    requires |s1.tasks| <= |after.tasks| <= |s1.tasks| + |keys| - 1 && after.tasks[..|s1.tasks|] == s1.tasks
    requires forall j :: |s1.tasks| <= j < |after.tasks| ==>
      IsDue(p, keys[1..], after.tasks[j], project, r)
    requires forall key, user :: key in keys[1..] && IsAsked(p, key, user) ==>
      AskedTask(user, project, r) in after.tasks[|s1.tasks|..]
    ensures after.tasks[..|s.tasks|] == s.tasks
    ensures forall j :: |s.tasks| <= j < |after.tasks| ==>
      IsDue(p, keys, after.tasks[j], project, r)
    ensures forall key, user :: key in keys && IsAsked(p, key, user) ==> AskedTask(user, project, r) in after.tasks[|s.tasks|..]
  {
    hide IsAsked, AskedTask;
    assert after.tasks[..|s.tasks|] == after.tasks[..|s1.tasks|][..|s.tasks|];
    forall j | |s.tasks| <= j < |after.tasks|
      ensures IsDue(p, keys, after.tasks[j], project, r)
    {
      if j < |s1.tasks| {
        assert after.tasks[j] == s1.tasks[j];
        var user :| IsAsked(p, keys[0], user) && s1.tasks[|s.tasks|] == AskedTask(user, project, r);
        assert keys[0] in keys;
      } else {
        var key, user :| key in keys[1..] && IsAsked(p, key, user) && after.tasks[j] == AskedTask(user, project, r);
        assert key in keys;
      }
    }
    forall key, user | key in keys && IsAsked(p, key, user)
      ensures AskedTask(user, project, r) in after.tasks[|s.tasks|..]
    {
      if key == keys[0] {
        assert after.tasks[|s.tasks|..][0] == after.tasks[..|s1.tasks|][|s.tasks|];
      } else {
        assert key in keys[1..];
        var i :| 0 <= i < |after.tasks[|s1.tasks|..]| && after.tasks[|s1.tasks|..][i] == AskedTask(user, project, r);
        assert after.tasks[|s.tasks|..][i + |s1.tasks| - |s.tasks|] == AskedTask(user, project, r);
      }
    }
  }

  /** Asking for approval gives each approver but the client a task, and the client the one request a release ever
      gets, listing its tasks, if its project requires one. */
  ghost predicate RequestShows(s: Desk, after: Desk, r: nat)
    requires r < |s.releases|
  {
    var rel := s.releases[r];
    var p := if rel.project in s.projects then s.projects[rel.project] else Project("", false, [], None, None, None);
    var requested := exists i :: 0 <= i < |s.uats| && s.uats[i].release == Some(r);
    && after.releases == s.releases[r := rel.(status := ApprovalRequested)]
    && after.uats == s.uats + (if rel.uatRequired && !requested then [Uat(Some(r), rel.tasks, p.org, UatPending)] else [])
    && |s.tasks| <= |after.tasks| && after.tasks[..|s.tasks|] == s.tasks
    && (forall j :: |s.tasks| <= j < |after.tasks| ==>
          IsDue(p, p.approvers, after.tasks[j], rel.project, r))
    && (forall key, user :: key in p.approvers && IsAsked(p, key, user) ==>
          AskedTask(user, rel.project, r) in after.tasks[|s.tasks|..])
  }

  /** Main: the button shows exactly that. */
  lemma AskingMeans(s: Desk, r: nat)
    requires Inv(s) && ReleaseOffered(s, RequestApproval(r))
    ensures RequestShows(s, ApplyRelease(s, RequestApproval(r)), r)
  {
    hide ApprovalTasks, IsAsked, AskedTask, Inv, IsDue;
    var rel := s.releases[r];
    var p := ProjectOf(s, rel.project);
    var s0 := SetRelease(s, r, rel.(status := ApprovalRequested));
    ApproversAreAsked(s0, p.approvers, p, rel.project, r);
    TasksOnly(s0, p.approvers, p, rel.project, r);
    assert s.uats + [] == s.uats;
  }

  lemma {:induction false} TasksOnly(s: Desk, keys: seq<string>, p: Project, project: string, r: nat)
    ensures var after := ApprovalTasks(s, keys, p, project, r);
      after == s.(tasks := after.tasks)
    decreases |keys|
  {
    if keys != [] {
      var user := ApproverUser(p, keys[0]);
      var s1 := if user.None? then s
        else s.(tasks := s.tasks + [MgmtTask("Release Approval", user, project, None).(release := Some(r))]);
      TasksOnly(s1, keys[1..], p, project, r);
    }
  }

  /** An unfinished approval task of the release for this person. */
  predicate Approves(t: Task, r: nat, me: string) {
    t.release == Some(r) && t.category == "Release Approval" && t.assignedTo == Some(me) && t.status != Completed
  }

  lemma {:induction false} ApprovalTaskIsNewest(tasks: seq<Task>, r: nat, me: string)
    ensures var i := ApprovalTask(tasks, r, me);
      && (i.Some? ==> i.value < |tasks| && Approves(tasks[i.value], r, me))
      && forall j :: 0 <= j < |tasks| && (i.Some? ==> i.value < j) ==> !Approves(tasks[j], r, me)
  {
    if tasks != [] {
      var n := |tasks| - 1;
      ApprovalTaskIsNewest(tasks[..n], r, me);
      forall j | 0 <= j < n ensures tasks[..n][j] == tasks[j] {
      }
    }
  }

  /** An approval fills its slot and no other, finishes the newest approval task of the person, and approves the
      release exactly when that was the last thing missing. */
  ghost predicate SlotShows(s: Desk, after: Desk, r: nat, key: string, me: string)
    requires r < |s.releases|
  {
    var rel := s.releases[r];
    && |after.releases| == |s.releases| && after.releases == s.releases[r := after.releases[r]]
    && (var now := after.releases[r];
       && now.approvals.Keys == rel.approvals.Keys
       && (forall k :: k in rel.approvals ==> now.approvals[k] == (k == key || rel.approvals[k]))
       && now == rel.(approvals := now.approvals, status := now.status)
       && now.status ==
            (if (forall k :: k in rel.approvals ==> k == key || rel.approvals[k])
                && (rel.uatRequired ==> rel.uatStatus == Some(UatApproved))
             then ReleaseApproved else rel.status))
    && |after.tasks| == |s.tasks|
    && forall j :: 0 <= j < |s.tasks| ==>
         after.tasks[j] ==
           if Approves(s.tasks[j], r, me) && (forall i :: j < i < |s.tasks| ==> !Approves(s.tasks[i], r, me))
           then s.tasks[j].(status := Completed) else s.tasks[j]
  }

  /** Main: the button shows exactly that. */
  lemma ApprovingMeans(s: Desk, r: nat, key: string, me: string)
    requires ReleaseOffered(s, ApproveRelease(r, key, me))
    ensures SlotShows(s, ApplyRelease(s, ApproveRelease(r, key, me)), r, key, me)
  {
    ApprovalTaskIsNewest(s.tasks, r, me);
    hide ApprovalTask;
    var rel := s.releases[r];
    SlotFilled(rel, key);
    hide AllApproved;
  }

  lemma SlotFilled(rel: Release, key: string)
    requires key in rel.approvals
    ensures var now := rel.approvals[key := true];
      && now.Keys == rel.approvals.Keys
      && (forall k :: k in rel.approvals ==> now[k] == (k == key || rel.approvals[k]))
    ensures AllApproved(rel.(approvals := rel.approvals[key := true])) <==>
      forall k :: k in rel.approvals ==> k == key || rel.approvals[k]
  {
  }

  // ----- publishing and rolling back -----

  /** Only a fully approved, signed-off release of tasks that all stand tested is published; its ready tasks go live
      to be verified, by one pending live check on its first task. */
  ghost predicate PublicationShows(s: Desk, after: Desk, r: nat)
    requires r < |s.releases|
  {
    var rel := s.releases[r];
    && rel.tasks != []
    && (forall k :: k in rel.approvals ==> rel.approvals[k]) && (rel.uatRequired ==> rel.uatStatus == Some(UatApproved))
    && (forall k :: 0 <= k < |rel.tasks| ==>
          && rel.tasks[k] < |s.tasks| && QaStands(s.tasks[rel.tasks[k]].history)
          && s.tasks[rel.tasks[k]].status in {ReadyToPublish, LiveVerification, Completed, ClientUat})
    && after.releases == s.releases[r := rel.(status := Published)]
    && after.qas == s.qas + [Qa(rel.tasks[0], Some(r), Live, QaPending)]
    && MovedFrom(s.tasks, after.tasks, rel.tasks, {ReadyToPublish}, LiveVerification)
  }

  /** Main: the button shows exactly that. */
  lemma PublishingMeans(s: Desk, r: nat)
    requires Inv(s) && ReleaseOffered(s, ReleaseAction.Publish(r))
    ensures PublicationShows(s, ApplyRelease(s, ReleaseAction.Publish(r)), r)
  {
    var rel := s.releases[r];
    AllTested(s, r);
    GatePassed(s, r);
    hide Each, MovedFrom, Inv, QaStands, PastQaForPublish, Publishable;
    var s1 := SetRelease(s, r, rel.(status := Published));
    var s2 := s1.(qas := s1.qas + [Qa(rel.tasks[0], Some(r), Live, QaPending)]);
    EachMoves(s2, rel.tasks, {ReadyToPublish}, PublishedLive, LiveVerification);
  }

  lemma GatePassed(s: Desk, r: nat)
    requires ReleaseOffered(s, ReleaseAction.Publish(r))
    ensures r < |s.releases| && s.releases[r].tasks != []
    ensures forall k :: k in s.releases[r].approvals ==> s.releases[r].approvals[k]
    ensures s.releases[r].uatRequired ==> s.releases[r].uatStatus == Some(UatApproved)
  {
  }

  lemma AllTested(s: Desk, r: nat)
    requires Inv(s) && ReleaseOffered(s, ReleaseAction.Publish(r))
    ensures forall k :: 0 <= k < |s.releases[r].tasks| ==>
      var id := s.releases[r].tasks[k];
      && id < |s.tasks| && QaStands(s.tasks[id].history)
      && s.tasks[id].status in {ReadyToPublish, LiveVerification, Completed, ClientUat}
  {
    hide Inv, QaStands, Publishable;
    forall k | 0 <= k < |s.releases[r].tasks|
      ensures var id := s.releases[r].tasks[k];
        && id < |s.tasks| && QaStands(s.tasks[id].history)
        && s.tasks[id].status in {ReadyToPublish, LiveVerification, Completed, ClientUat}
    {
      TestedToPublish(s, r, k);
    }
  }

  lemma TestedToPublish(s: Desk, r: nat, k: nat)
    requires Inv(s) && ReleaseOffered(s, ReleaseAction.Publish(r)) && k < |s.releases[r].tasks|
    ensures var id := s.releases[r].tasks[k];
      && id < |s.tasks| && QaStands(s.tasks[id].history)
      && s.tasks[id].status in {ReadyToPublish, LiveVerification, Completed, ClientUat}
  {
    var id := s.releases[r].tasks[k];
    assert id in s.releases[r].tasks;
    assert s.tasks[id].kind == Dev;
    TaskAt(s, id);
    hide QaStands, Traced;
  }

  /** A task that is taken back when its release is rolled back. */
  predicate IsOut(t: Task) {
    t.status in {PublishedLive, LiveVerification, LiveFailed, RollbackRequired}
  }

  lemma {:induction false} RollEachAt(tasks: seq<Task>, ids: seq<nat>, j: nat)
    requires j < |tasks|
    ensures RollEach(tasks, ids)[j] ==
      if j in ids && IsOut(tasks[j])
      then tasks[j].(status := ReturnedToDev, history := tasks[j].history + [Entry(RollbackRequired, ReturnedToDev)])
      else tasks[j]
    decreases |ids|
  {
    if ids != [] {
      var rows := if ids[0] < |tasks| then tasks[ids[0] := RolledBackTask(tasks[ids[0]])] else tasks;
      RollEachAt(rows, ids[1..], j);
      assert j in ids <==> j == ids[0] || j in ids[1..];
    }
  }

  /** Rolling back returns exactly the release's tasks that are out, and marks the release. */
  ghost predicate RollbackShows(s: Desk, after: Desk, r: nat)
    requires r < |s.releases|
  {
    var rel := s.releases[r];
    && after.releases == s.releases[r := rel.(status := RolledBack)]
    && |after.tasks| == |s.tasks| && after.uats == s.uats && after.qas == s.qas && after.tickets == s.tickets
    && forall j :: 0 <= j < |s.tasks| ==>
         after.tasks[j] ==
           if j in rel.tasks && IsOut(s.tasks[j])
           then s.tasks[j].(status := ReturnedToDev, history := s.tasks[j].history + [Entry(RollbackRequired, ReturnedToDev)])
           else s.tasks[j]
  }

  /** Main: the button shows exactly that. */
  lemma RollingBackMeans(s: Desk, r: nat)
    requires ReleaseOffered(s, Rollback(r))
    ensures RollbackShows(s, ApplyRelease(s, Rollback(r)), r)
  {
    var rel := s.releases[r];
    forall j | 0 <= j < |s.tasks|
      ensures RollEach(s.tasks, rel.tasks)[j] ==
        if j in rel.tasks && IsOut(s.tasks[j])
        then s.tasks[j].(status := ReturnedToDev, history := s.tasks[j].history + [Entry(RollbackRequired, ReturnedToDev)])
        else s.tasks[j]
    {
      RollEachAt(s.tasks, rel.tasks, j);
    }
    hide RollEach;
  }
}
