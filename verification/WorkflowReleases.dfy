/** Every button on a release, a test or a client sign-off keeps the invariant. */
module WorkflowReleases {
  import opened Workflow
  import opened WorkflowInvariant
  import opened WorkflowSteps

  predicate PendingFor(uats: seq<Uat>, r: nat) {
    exists i :: 0 <= i < |uats| && uats[i].release == Some(r) && uats[i].status == UatPending
  }

  /** Rewriting a release without touching its task list. */
  predicate ReleaseRewrite(s: Desk, r: nat, rel: Release)
    requires r < |s.releases|
  {
    var was := s.releases[r];
    && rel.tasks == was.tasks && rel.uatRequired == was.uatRequired && rel.uatStatus == was.uatStatus
    && ReleaseSound(rel)
    && (Shipped(was) ==> Shipped(rel))
    && (PendingFor(s.uats, r) ==> Waiting(rel))
  }

  lemma RewriteAgrees(tasks: seq<Task>, releases: seq<Release>, r: nat, rel: Release)
    requires ReleasesAgree(tasks, releases) && r < |releases| && rel.tasks == releases[r].tasks
    ensures ReleasesAgree(tasks, releases[r := rel])
  {
    hide NoDuplicates;
    var after := releases[r := rel];
    assert forall i :: 0 <= i < |releases| ==> after[i].tasks == releases[i].tasks;
    forall i, j: nat | 0 <= i < |after| && j in after[i].tasks
      ensures j < |tasks| && tasks[j].kind == Dev && tasks[j].release == Some(i)
    {
      assert j in releases[i].tasks;
    }
    forall j | 0 <= j < |tasks| && tasks[j].kind == Dev && tasks[j].release.Some?
      ensures tasks[j].release.value < |after| && j in after[tasks[j].release.value].tasks
    {
      assert j in releases[tasks[j].release.value].tasks;
    }
  }

  lemma RewriteUats(uats: seq<Uat>, releases: seq<Release>, r: nat, rel: Release)
    requires UatsAgree(uats, releases) && r < |releases|
    requires rel.uatRequired == releases[r].uatRequired && rel.uatStatus == releases[r].uatStatus
    requires PendingFor(uats, r) ==> Waiting(rel)
    ensures UatsAgree(uats, releases[r := rel])
  {
    hide Waiting, HasUat;
    var after := releases[r := rel];
    forall i | 0 <= i < |uats| && uats[i].release.Some? && uats[i].status == UatPending
      ensures var x := after[uats[i].release.value]; x.uatRequired && x.uatStatus.None? && Waiting(x)
    {
      assert uats[i].release == Some(r) ==> PendingFor(uats, r);
    }
  }

  lemma RewriteKeeps(s: Desk, r: nat, rel: Release)
    requires Inv(s) && r < |s.releases| && ReleaseRewrite(s, r, rel)
    ensures Keeps(s, SetRelease(s, r, rel))
  {
    hide TasksSound, TicketsAgree, TicketsDone, ReleasesAgree, UatsAgree, AllRest, ReleaseSound, PendingFor, Waiting;
    RewriteAgrees(s.tasks, s.releases, r, rel);
    RewriteUats(s.uats, s.releases, r, rel);
  }

  /** What the invariant says of one release. */
  lemma ReleaseAt(s: Desk, r: nat)
    requires Inv(s) && r < |s.releases|
    ensures ReleaseSound(s.releases[r])
    ensures PendingFor(s.uats, r) ==>
      s.releases[r].uatRequired && s.releases[r].uatStatus.None? && Waiting(s.releases[r])
  {
  }

  lemma QaChangeKeeps(s: Desk, qas: seq<Qa>)
    requires Inv(s) && LiveChecksAgree(qas, s.releases)
    ensures Keeps(s, s.(qas := qas))
  {
    hide TasksSound, TicketsAgree, TicketsDone, ReleasesAgree, ReleasesSound, UatsAgree, AllRest;
  }

  lemma SetQaKeeps(s: Desk, q: nat, status: QaStatus)
    requires Inv(s) && q < |s.qas|
    ensures Keeps(s, SetQa(s, q, status))
  {
    hide TasksSound, TicketsAgree, TicketsDone, ReleasesAgree, ReleasesSound, UatsAgree, AllRest;
  }

  lemma ApprovedIgnores(a: Release, b: Release)
    requires a.approvals == b.approvals
    ensures AllApproved(a) == AllApproved(b)
  {
  }

  // ----- tests -----

  lemma TestResultKeeps(s: Desk, q: nat, pass: bool)
    requires Inv(s) && TestOffered(s, TestResult(q, pass))
    ensures Keeps(s, ApplyTest(s, TestResult(q, pass)))
  {
    hide Inv, Keeps, Transition, QaStands, Traced;
    var id, to := s.qas[q].task, if pass then QaPassed else QaFailed;
    var s1 := SetQa(s, q, if pass then QaOk else QaBad);
    SetQaKeeps(s, q, if pass then QaOk else QaBad);
    KeepsInv(s, s1);
    TaskAt(s, id);
    TransitionSettles(s1, id, to);
    KeepsTrans(s, s1, Transition(s1, id, to));
  }

  lemma RecordLiveKeeps(s: Desk, q: nat, pass: bool)
    requires Inv(s) && LiveTestOffered(s, q)
    ensures Keeps(s, RecordLive(s, q, pass))
  {
    hide Linked, AllRest, Keeps, Each, MayMove;
    var r := s.qas[q].release.value;
    var s1 := SetQa(s, q, if pass then QaOk else QaBad);
    SetQaKeeps(s, q, if pass then QaOk else QaBad);
    KeepsInv(s, s1);
    ReleaseAt(s1, r);
    LiveIsShipped(s, q);
    var rel := s1.releases[r].(status := if pass then Verified else Failed);
    var s2 := SetRelease(s1, r, rel);
    RewriteKeeps(s1, r, rel);
    KeepsInv(s1, s2);
    KeepsTrans(s, s1, s2);
    LiveMayMove();
    EachKeeps(s2, rel.tasks, {LiveVerification}, if pass then Completed else LiveFailed);
    KeepsTrans(s, s2, RecordLive(s, q, pass));
  }

  lemma LiveIsShipped(s: Desk, q: nat)
    requires Inv(s) && LiveTestOffered(s, q)
    ensures Shipped(s.releases[s.qas[q].release.value])
  {
  }

  // ----- client sign-off -----

  lemma DecidedUats(uats: seq<Uat>, releases: seq<Release>, u: nat, status: UatStatus)
    requires UatsAgree(uats, releases) && u < |uats| && status != UatPending
    ensures UatsAgree(uats[u := uats[u].(status := status)], releases)
  {
    hide Waiting;
    var after := uats[u := uats[u].(status := status)];
    assert forall i :: 0 <= i < |uats| ==> after[i].release == uats[i].release;
    forall r | 0 <= r < |releases| && HasUat(uats, r) ensures HasUat(after, r) {
      var i :| 0 <= i < |uats| && uats[i].release == Some(r);
      assert after[i].release == Some(r);
    }
  }

  /** A decided request for a release is answered: nothing else is pending for it. */
  lemma AnswerAgrees(uats: seq<Uat>, releases: seq<Release>, u: nat, rel: Release)
    requires UatsAgree(uats, releases) && u < |uats| && uats[u].release.Some? && uats[u].status != UatPending
    requires rel.uatRequired == releases[uats[u].release.value].uatRequired && rel.uatRequired
    ensures UatsAgree(uats, releases[uats[u].release.value := rel])
  {
    hide Waiting;
    var r := uats[u].release.value;
    var after := releases[r := rel];
    assert HasUat(uats, r);
    forall i | 0 <= i < |uats| && uats[i].release.Some? && uats[i].status == UatPending
      ensures var x := after[uats[i].release.value]; x.uatRequired && x.uatStatus.None? && Waiting(x)
    {
      assert uats[i].release != uats[u].release;
    }
  }

  lemma TransitionLeavesUats(s: Desk, id: nat, to: Status)
    requires id < |s.tasks| && to in {ReadyToPublish, ReturnedToDev}
    ensures Transition(s, id, to).uats == s.uats
  {
  }

  lemma {:induction false} EachLeavesUats(s: Desk, ids: seq<nat>, when: set<Status>, to: Status)
    requires Inv(s) && MayMove(when, to) && to in {ReadyToPublish, ReturnedToDev}
    ensures Each(s, ids, when, to).uats == s.uats
    decreases |ids|
  {
    hide Inv, Sensible, MayMove, Sound, Transition;
    if ids != [] {
      var id := ids[0];
      var next := if id < |s.tasks| && s.tasks[id].status in when then Transition(s, id, to) else s;
      if id < |s.tasks| && s.tasks[id].status in when {
        MayMoveTask(s, id, when, to);
        TransitionLeavesUats(s, id, to);
        TransitionSettles(s, id, to);
        KeepsInv(s, next);
      }
      EachLeavesUats(next, ids[1..], when, to);
    }
  }

  lemma MayMoveTask(s: Desk, id: nat, when: set<Status>, to: Status)
    requires Inv(s) && MayMove(when, to) && id < |s.tasks| && s.tasks[id].status in when
    ensures Sensible(s.tasks[id], to)
  {
    TaskAt(s, id);
  }

  lemma AnsweredIsSound(r: Release, approve: bool)
    requires Waiting(r)
    ensures ReleaseSound(ReleaseAfterUat(r, approve)) && !Shipped(r)
    ensures ReleaseAfterUat(r, approve).tasks == r.tasks && ReleaseAfterUat(r, approve).uatRequired == r.uatRequired
  {
  }

  lemma AnswerKeeps(s: Desk, u: nat, approve: bool)
    requires Inv(s) && u < |s.uats| && s.uats[u].status != UatPending
    requires s.uats[u].release.Some? && s.uats[u].release.value < |s.releases|
    requires var r := s.releases[s.uats[u].release.value]; r.uatRequired && Waiting(r)
    ensures var r := s.uats[u].release.value; Keeps(s, SetRelease(s, r, ReleaseAfterUat(s.releases[r], approve)))
  {
    hide TasksSound, TicketsAgree, TicketsDone, ReleasesAgree, UatsAgree, AllRest, ReleaseSound, ReleaseAfterUat;
    var r := s.uats[u].release.value;
    var rel := ReleaseAfterUat(s.releases[r], approve);
    AnsweredIsSound(s.releases[r], approve);
    RewriteAgrees(s.tasks, s.releases, r, rel);
    AnswerAgrees(s.uats, s.releases, u, rel);
  }

  lemma DecideKeeps(s: Desk, u: nat, approve: bool)
    requires Inv(s) && TestOffered(s, DecideUat(u, approve))
    ensures Keeps(s, Decide(s, u, approve))
  {
    hide Inv, Keeps, Each, MayMove, ReleaseAfterUat, Waiting;
    var uat := s.uats[u];
    var s1 := s.(uats := s.uats[u := uat.(status := if approve then UatApproved else UatChanges)]);
    DecidingKeeps(s, u, if approve then UatApproved else UatChanges);
    KeepsInv(s, s1);
    var when, to := if approve then {ClientUat} else {ClientUat, ReadyToPublish, QaPassed},
                    if approve then ReadyToPublish else ReturnedToDev;
    var s2 := Each(s1, uat.tasks, when, to);
    UatMayMove();
    EachKeeps(s1, uat.tasks, when, to);
    EachLeavesUats(s1, uat.tasks, when, to);
    KeepsInv(s1, s2);
    KeepsTrans(s, s1, s2);
    if uat.release.Some? && uat.release.value < |s2.releases| {
      PendingAt(s, u);
      AnswerKeeps(s2, u, approve);
      KeepsTrans(s, s2, Decide(s, u, approve));
    }
  }

  lemma DecidingKeeps(s: Desk, u: nat, status: UatStatus)
    requires Inv(s) && u < |s.uats| && status != UatPending
    ensures Keeps(s, s.(uats := s.uats[u := s.uats[u].(status := status)]))
  {
    hide TasksSound, TicketsAgree, TicketsDone, ReleasesAgree, ReleasesSound, UatsAgree, LiveChecksAgree, AllRest;
    DecidedUats(s.uats, s.releases, u, status);
  }

  lemma PendingAt(s: Desk, u: nat)
    requires Inv(s) && u < |s.uats| && s.uats[u].status == UatPending && s.uats[u].release.Some?
    ensures s.uats[u].release.value < |s.releases|
    ensures var r := s.releases[s.uats[u].release.value]; r.uatRequired && r.uatStatus.None? && Waiting(r)
  {
  }

  /** Main: every button on a test or a sign-off. */
  lemma TestStepKeeps(s: Desk, a: TestAction)
    requires Inv(s) && TestOffered(s, a)
    ensures Keeps(s, ApplyTest(s, a))
  {
    hide Inv, Keeps;
    match a
    case StartTesting(q) => SetQaKeeps(s, q, QaStarted);
    case Clarify(q) => SetQaKeeps(s, q, Clarification);
    case TestResult(q, pass) => TestResultKeeps(s, q, pass);
    case VerifyLive(q, pass) => RecordLiveKeeps(s, q, pass);
    case DecideUat(u, approve) => DecideKeeps(s, u, approve);
  }

  // ----- releases -----

  lemma PublishKeeps(s: Desk, r: nat)
    requires Inv(s) && ReleaseOffered(s, ReleaseAction.Publish(r))
    ensures Keeps(s, PublishNow(s, r))
  {
    hide Linked, AllRest, Keeps, Each, MayMove, AllApproved;
    ReleaseAt(s, r);
    var rel := s.releases[r].(status := Published);
    ApprovedIgnores(s.releases[r], rel);
    var s1 := SetRelease(s, r, rel);
    RewriteKeeps(s, r, rel);
    KeepsInv(s, s1);
    var qas := s1.qas + [Qa(rel.tasks[0], Some(r), Live, QaPending)];
    var s2 := s1.(qas := qas);
    LiveRow(s1, Qa(rel.tasks[0], Some(r), Live, QaPending));
    QaChangeKeeps(s1, qas);
    KeepsInv(s1, s2);
    KeepsTrans(s, s1, s2);
    LiveMayMove();
    EachKeeps(s2, rel.tasks, {ReadyToPublish}, PublishedLive);
    KeepsTrans(s, s2, PublishNow(s, r));
  }

  lemma LiveRow(s: Desk, q: Qa)
    requires Inv(s) && q.release.Some? && q.release.value < |s.releases| && Shipped(s.releases[q.release.value])
    ensures LiveChecksAgree(s.qas + [q], s.releases)
  {
    QaRowKeeps(s.qas, q, s.releases);
  }

  lemma ScheduleKeeps(s: Desk, r: nat)
    requires Inv(s) && ReleaseOffered(s, Schedule(r))
    ensures Keeps(s, ApplyRelease(s, Schedule(r)))
  {
    hide Inv, Keeps, AllApproved;
    ReleaseAt(s, r);
    ApprovedIgnores(s.releases[r], s.releases[r].(status := Scheduled));
    RewriteKeeps(s, r, s.releases[r].(status := Scheduled));
  }

  lemma ApproveSlotKeeps(s: Desk, r: nat, key: string, me: string)
    requires Inv(s) && ReleaseOffered(s, ApproveRelease(r, key, me))
    ensures Keeps(s, ApproveSlot(s, r, key, me))
  {
    hide Linked, AllRest, Keeps, AllApproved, ApprovalTask;
    ReleaseAt(s, r);
    var slot := s.releases[r].(approvals := s.releases[r].approvals[key := true]);
    var rel := if AllApproved(slot) && SignedOff(slot) then slot.(status := ReleaseApproved) else slot;
    ApprovedIgnores(slot, rel);
    RewriteKeeps(s, r, rel);
    var s1 := SetRelease(s, r, rel);
    KeepsInv(s, s1);
    FinishKeeps(s1, ApprovalTask(s1.tasks, r, me));
    KeepsTrans(s, s1, ApproveSlot(s, r, key, me));
  }

  lemma {:induction false} ApprovalTasksKeep(s: Desk, keys: seq<string>, p: Project, project: string, r: nat)
    requires Inv(s)
    ensures Keeps(s, ApprovalTasks(s, keys, p, project, r))
    ensures ApprovalTasks(s, keys, p, project, r).uats == s.uats
    ensures ApprovalTasks(s, keys, p, project, r).releases == s.releases
    decreases |keys|
  {
    hide Linked, AllRest;
    if keys != [] {
      var user := ApproverUser(p, keys[0]);
      var t := MgmtTask("Release Approval", user, project, None).(release := Some(r));
      var s1 := if user.None? then s else s.(tasks := s.tasks + [t]);
      if user.Some? {
        AppendSettles(s, t);
      }
      ApprovalTasksKeep(s1, keys[1..], p, project, r);
      KeepsTrans(s, s1, ApprovalTasks(s1, keys[1..], p, project, r));
    }
  }

  /** The first sign-off request of a waiting release. */
  lemma NewUatKeeps(s: Desk, u: Uat)
    requires Inv(s) && u.release.Some? && u.release.value < |s.releases| && !HasUat(s.uats, u.release.value)
    requires s.releases[u.release.value].uatRequired && Waiting(s.releases[u.release.value])
    ensures Keeps(s, s.(uats := s.uats + [u]))
  {
    hide TasksSound, TicketsAgree, TicketsDone, ReleasesAgree, ReleasesSound, LiveChecksAgree, AllRest, Waiting;
    var after := s.uats + [u];
    assert forall i :: 0 <= i < |s.uats| ==> after[i] == s.uats[i];
    forall r | 0 <= r < |s.releases| && HasUat(s.uats, r) ensures HasUat(after, r) {
      var i :| 0 <= i < |s.uats| && s.uats[i].release == Some(r);
      assert after[i].release == Some(r);
    }
  }

  lemma AskApprovalKeeps(s: Desk, r: nat)
    requires Inv(s) && ReleaseOffered(s, RequestApproval(r))
    ensures Keeps(s, AskApproval(s, r))
  {
    hide Linked, AllRest, Keeps, ApprovalTasks, AllApproved;
    ReleaseAt(s, r);
    var rel := s.releases[r].(status := ApprovalRequested);
    var p := ProjectOf(s, rel.project);
    RewriteKeeps(s, r, rel);
    var s1 := SetRelease(s, r, rel);
    KeepsInv(s, s1);
    ApprovalTasksKeep(s1, p.approvers, p, rel.project, r);
    var s2 := ApprovalTasks(s1, p.approvers, p, rel.project, r);
    KeepsInv(s1, s2);
    KeepsTrans(s, s1, s2);
    if rel.uatRequired && !HasUat(s.uats, r) {
      var u := Uat(Some(r), rel.tasks, p.org, UatPending);
      NewUatKeeps(s2, u);
      KeepsTrans(s, s2, s2.(uats := s2.uats + [u]));
    }
  }

  lemma {:induction false} RollEachKeeps(s: Desk, ids: seq<nat>)
    requires Inv(s)
    ensures Keeps(s, s.(tasks := RollEach(s.tasks, ids)))
    decreases |ids|
  {
    hide Linked, AllRest;
    if ids != [] {
      var id := ids[0];
      var s1 := if id < |s.tasks| then WithTask(s, id, RolledBackTask(s.tasks[id])) else s;
      if id < |s.tasks| {
        TaskAt(s, id);
        RolledBackIsSound(s.tasks[id]);
        PutSettles(s, id, RolledBackTask(s.tasks[id]));
      }
      RollEachKeeps(s1, ids[1..]);
      KeepsTrans(s, s1, s1.(tasks := RollEach(s1.tasks, ids[1..])));
    }
  }

  lemma RolledBackIsSound(t: Task)
    requires Sound(t) && !Transient(t.status)
    ensures Sound(RolledBackTask(t)) && SameLinks(t, RolledBackTask(t)) && !Transient(RolledBackTask(t).status)
    ensures t.status == Completed ==> RolledBackTask(t).status == Completed
  {
    hide QaStands, Connected;
    if t.status in {RollbackRequired, LiveVerification} {
      ConnectedAfter(t.history, Entry(RollbackRequired, ReturnedToDev));
    }
  }

  lemma RollBackKeeps(s: Desk, r: nat)
    requires Inv(s) && ReleaseOffered(s, Rollback(r))
    ensures Keeps(s, RollBack(s, r))
  {
    hide Linked, AllRest, Keeps, RollEach, AllApproved;
    ReleaseAt(s, r);
    var rel := s.releases[r].(status := RolledBack);
    ApprovedIgnores(s.releases[r], rel);
    RewriteKeeps(s, r, rel);
    var s1 := SetRelease(s, r, rel);
    KeepsInv(s, s1);
    RollEachKeeps(s1, rel.tasks);
    KeepsTrans(s, s1, RollBack(s, r));
  }
}
