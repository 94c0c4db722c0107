/** Which releases can still be approved, and which are held for ever. */
module WorkflowHeld {
  import opened Workflow
  import opened WorkflowInvariant
  import opened WorkflowSteps
  import opened WorkflowReleases
  import opened WorkflowRuns

  // ----- what happens to sign-off requests -----

  /** Requests keep their release and their answer; new ones belong to no release. */
  predicate UatsExtend(before: seq<Uat>, after: seq<Uat>) {
    && |before| <= |after|
    && (forall i :: 0 <= i < |before| ==> after[i].release == before[i].release && after[i].status == before[i].status)
    && (forall i :: |before| <= i < |after| ==> after[i].release.None?)
  }

  lemma ExtendTrans(a: seq<Uat>, b: seq<Uat>, c: seq<Uat>)
    requires UatsExtend(a, b) && UatsExtend(b, c)
    ensures UatsExtend(a, c)
  {
    forall i | |a| <= i < |c| ensures c[i].release.None? {
      assert i < |b| ==> c[i].release == b[i].release;
    }
  }

  lemma JoinExtends(uats: seq<Uat>, org: string, id: nat)
    ensures UatsExtend(uats, JoinUat(uats, org, id))
  {
    OpenUatIsOpen(uats, org);
  }

  lemma {:induction false} TransitionExtends(s: Desk, id: nat, to: Status)
    requires id < |s.tasks|
    ensures UatsExtend(s.uats, Transition(s, id, to).uats)
    decreases if FollowUp(s, s.tasks[id], to).Some? then 1 else 0
  {
    hide Moved, JoinUat, UatsExtend, AllCompleted;
    var t := s.tasks[id];
    var next := FollowUp(s, t, to);
    MovedLinks(t, to);
    ExtendItself(s.uats);
    if next.Some? {
      TransitionExtends(WithTask(s, id, Moved(t, to)), id, next.value);
    } else {
      JoinExtends(s.uats, ProjectOf(s, t.project).org, id);
    }
  }

  lemma ExtendItself(uats: seq<Uat>)
    ensures UatsExtend(uats, uats)
  {
  }

  lemma {:induction false} EachExtends(s: Desk, ids: seq<nat>, when: set<Status>, to: Status)
    ensures UatsExtend(s.uats, Each(s, ids, when, to).uats)
    decreases |ids|
  {
    hide Transition, UatsExtend;
    ExtendItself(s.uats);
    if ids != [] {
      var id := ids[0];
      var next := if id < |s.tasks| && s.tasks[id].status in when then Transition(s, id, to) else s;
      if id < |s.tasks| && s.tasks[id].status in when {
        TransitionExtends(s, id, to);
      }
      EachExtends(next, ids[1..], when, to);
      ExtendTrans(s.uats, next.uats, Each(next, ids[1..], when, to).uats);
    }
  }

  lemma TaskExtends(s: Desk, a: TaskAction)
    requires TaskOffered(s, a)
    ensures UatsExtend(s.uats, ApplyTask(s, a).uats) && ApplyTask(s, a).releases == s.releases
  {
    hide Transition, UatsExtend, ReviewTask, ChecksOk;
    ExtendItself(s.uats);
    match a
    case Start(id) => TransitionExtends(s, id, InProgress);
    case Block(id, who) => TransitionExtends(WithTask(s, id, s.tasks[id].(prev := Some(s.tasks[id].status))), id, Blocked);
    case Unblock(id) => TransitionExtends(s, id, if s.tasks[id].prev.Some? then s.tasks[id].prev.value else InProgress);
    case DevComplete(id, v) => TransitionExtends(WithTask(s, id, s.tasks[id].(clientVisible := v)), id, DevCompleted);
    case MgmtComplete(id) => TransitionExtends(s, id, Completed);
    case RequestReview(id, reviewer) => TransitionExtends(WithTask(s, id, s.tasks[id].(reviewer := reviewer)), id, CodeReview);
    case ApproveReview(id) => ApproveExtends(s, id);
    case RequestChanges(id) =>
      TransitionExtends(WithTask(s, id, s.tasks[id].(pr := Some(ChangesRequested))), id, ReturnedToDev);
    case OverrideChecks(id) => TransitionExtends(WithTask(s, id, s.tasks[id].(overridden := true)), id, ReadyForQa);
    case SendForTesting(id) => TransitionExtends(s, id, TestingStaging);
    case SubmitFix(id) =>
      TransitionExtends(s, id, FixSubmitted);
      TransitionExtends(Transition(s, id, FixSubmitted), id, TestingStaging);
      ExtendTrans(s.uats, Transition(s, id, FixSubmitted).uats, Fix(s, id).uats);
    case _ =>
  }

  lemma ApproveExtends(s: Desk, id: nat)
    requires id < |s.tasks|
    ensures UatsExtend(s.uats, Approve(s, id).uats) && Approve(s, id).releases == s.releases
  {
    hide Transition, UatsExtend, ReviewTask, ChecksOk;
    ExtendItself(s.uats);
    var s1 := WithTask(s, id, s.tasks[id].(pr := Some(PrApproved), reviewApproved := true));
    var s2 := Finish(s1, ReviewTask(s1.tasks, id));
    TransitionExtends(s2, id, ReadyForQa);
    var u := s2.tasks[id];
    var checks := (if u.checks.Some? then u.checks.value else map[])["api" := Passing]["security" := Passing];
    TransitionExtends(WithTask(s2, id, u.(checks := Some(checks))), id, ReadyForQa);
  }

  lemma TicketLeaves(s: Desk, a: TicketAction)
    requires TicketOffered(s, a)
    ensures ApplyTicket(s, a).uats == s.uats && ApplyTicket(s, a).releases == s.releases
  {
  }

  // ----- what happens to a release -----

  /** The client's slot, if the policy has one. */
  function ClientSlot(rel: Release): Option<bool> {
    if "client" in rel.approvals then Some(rel.approvals["client"]) else None
  }

  /** Nothing that decides whether the client can still sign off has changed. */
  predicate Alike(a: Release, b: Release) {
    a.uatStatus == b.uatStatus && a.uatRequired == b.uatRequired && ClientSlot(a) == ClientSlot(b)
  }

  /** The answer or the request a release is waiting for can no longer come: the client has asked for changes, or its
      slot is open while no request is pending and none will ever be made. */
  predicate Doomed(s: Desk, r: nat) {
    && r < |s.releases|
    && var rel := s.releases[r];
       || rel.uatStatus == Some(UatChanges)
       || (ClientSlot(rel) == Some(false) && !PendingFor(s.uats, r) && (HasUat(s.uats, r) || !rel.uatRequired))
  }

  /** The release side of the publish gate: every slot filled, signed off where required. */
  predicate Clear(s: Desk, r: nat) {
    r < |s.releases| && AllApproved(s.releases[r]) && SignedOff(s.releases[r])
  }

  lemma ExtendSame(before: seq<Uat>, after: seq<Uat>, r: nat)
    requires UatsExtend(before, after)
    ensures HasUat(before, r) <==> HasUat(after, r)
    ensures PendingFor(before, r) <==> PendingFor(after, r)
  {
    if HasUat(before, r) {
      var i :| 0 <= i < |before| && before[i].release == Some(r);
      assert after[i].release == Some(r);
    }
    if PendingFor(before, r) {
      var i :| 0 <= i < |before| && before[i].release == Some(r) && before[i].status == UatPending;
      assert after[i].release == Some(r) && after[i].status == UatPending;
    }
  }

  /** A step that extends the requests and leaves the release alike changes nothing for it. */
  lemma AlikeIsDoomedToo(s: Desk, next: Desk, r: nat)
    requires r < |s.releases| && r < |next.releases|
    requires UatsExtend(s.uats, next.uats) && Alike(s.releases[r], next.releases[r])
    ensures Doomed(s, r) <==> Doomed(next, r)
  {
    ExtendSame(s.uats, next.uats, r);
    hide UatsExtend, HasUat, PendingFor;
  }

  lemma DoomedWaits(s: Desk, r: nat)
    requires Inv(s) && Doomed(s, r)
    ensures Waiting(s.releases[r]) && !Clear(s, r) && !Publishable(s, s.releases[r])
  {
    ReleaseAt(s, r);
    hide TasksSound, TicketsAgree, TicketsDone, ReleasesAgree, LiveChecksAgree, AllRest;
    var rel := s.releases[r];
    if rel.uatStatus == Some(UatChanges) {
      assert rel.uatRequired;
      assert !SignedOff(rel);
    } else {
      assert "client" in rel.approvals && !rel.approvals["client"];
      assert !AllApproved(rel);
    }
  }

  // ----- held for ever -----

  lemma TestKeepsDoomed(s: Desk, a: TestAction, r: nat)
    requires Inv(s) && TestOffered(s, a) && Doomed(s, r)
    ensures Doomed(ApplyTest(s, a), r)
  {
    DoomedWaits(s, r);
    match a
    case DecideUat(u, approve) => DecideKeepsDoomed(s, u, approve, r);
    case TestResult(q, pass) =>
      hide Inv, Doomed, Transition;
      TransitionExtends(SetQa(s, q, if pass then QaOk else QaBad), s.qas[q].task, if pass then QaPassed else QaFailed);
      AlikeIsDoomedToo(s, ApplyTest(s, a), r);
    case VerifyLive(q, pass) =>
      LiveIsShipped(s, q);
      hide Inv, Doomed, Each;
      var live := s.qas[q].release.value;
      var s1 := SetRelease(SetQa(s, q, if pass then QaOk else QaBad), live,
        s.releases[live].(status := if pass then Verified else Failed));
      EachExtends(s1, s.releases[live].tasks, {LiveVerification}, if pass then Completed else LiveFailed);
      AlikeIsDoomedToo(s, ApplyTest(s, a), r);
    case _ =>
      hide Inv, Doomed;
      ExtendItself(s.uats);
      AlikeIsDoomedToo(s, ApplyTest(s, a), r);
  }

  /** A decision never concerns a doomed release: a pending request means that nothing is decided yet. */
  lemma DecidedElsewhere(s: Desk, u: nat, r: nat)
    requires Inv(s) && Doomed(s, r) && u < |s.uats| && s.uats[u].status == UatPending
    ensures s.uats[u].release != Some(r)
  {
    if s.uats[u].release == Some(r) {
      assert PendingFor(s.uats, r);
      PendingAt(s, u);
    }
  }

  lemma AnsweringSame(uats: seq<Uat>, u: nat, status: UatStatus, r: nat)
    requires u < |uats| && uats[u].release != Some(r)
    ensures var after := uats[u := uats[u].(status := status)];
      && (HasUat(uats, r) <==> HasUat(after, r))
      && (PendingFor(uats, r) <==> PendingFor(after, r))
  {
    var after := uats[u := uats[u].(status := status)];
    assert forall i :: 0 <= i < |uats| ==> after[i].release == uats[i].release;
    if HasUat(uats, r) {
      var i :| 0 <= i < |uats| && uats[i].release == Some(r);
      assert after[i].release == Some(r);
    }
    if PendingFor(uats, r) {
      var i :| 0 <= i < |uats| && uats[i].release == Some(r) && uats[i].status == UatPending;
      assert after[i] == uats[i];
    }
    if PendingFor(after, r) {
      var i :| 0 <= i < |after| && after[i].release == Some(r) && after[i].status == UatPending;
      assert after[i] == uats[i];
    }
  }

  lemma DecideKeepsDoomed(s: Desk, u: nat, approve: bool, r: nat)
    requires Inv(s) && TestOffered(s, DecideUat(u, approve)) && Doomed(s, r)
    ensures Doomed(Decide(s, u, approve), r)
  {
    DecidedElsewhere(s, u, r);
    hide Inv, Each, UatsExtend, HasUat, PendingFor, ReleaseAfterUat;
    var status := if approve then UatApproved else UatChanges;
    var s1 := s.(uats := s.uats[u := s.uats[u].(status := status)]);
    AnsweringSame(s.uats, u, status, r);
    assert Doomed(s1, r);
    EachExtends(s1, s.uats[u].tasks, {ClientUat}, ReadyToPublish);
    EachExtends(s1, s.uats[u].tasks, {ClientUat, ReadyToPublish, QaPassed}, ReturnedToDev);
    AlikeIsDoomedToo(s1, Decide(s, u, approve), r);
  }

  lemma ReleaseKeepsDoomed(s: Desk, a: ReleaseAction, r: nat)
    requires Inv(s) && ReleaseOffered(s, a) && Doomed(s, r)
    ensures Doomed(ApplyRelease(s, a), r)
  {
    DoomedWaits(s, r);
    var next := ApplyRelease(s, a);
    match a
    case RequestApproval(asked) =>
      if asked == r {
        AskKeepsDoomed(s, r);
      } else {
        AskOther(s, asked, r);
      }
    case Publish(out) =>
      hide Inv, Doomed, Each, UatsExtend, Publishable;
      PublishExtends(s, out);
      AlikeIsDoomedToo(s, next, r);
    case _ => QuietReleaseStep(s, a, r);
  }

  lemma JoinReleaseWrites(s: Desk, id: nat, r: nat)
    requires id < |s.tasks| && r < |s.releases|
    ensures var after, rel := JoinRelease(s, id, r), s.releases[r];
      && after.uats == s.uats && |after.releases| == |s.releases|
      && (forall i :: 0 <= i < |s.releases| && i != r ==> after.releases[i] == s.releases[i])
      && (rel.status != ReleaseApproved ==> after.releases[r] == rel.(tasks := rel.tasks + [id]))
  {
  }

  /** The release buttons that make no request and move no task through the engine. */
  lemma QuietReleaseStep(s: Desk, a: ReleaseAction, r: nat)
    requires Inv(s) && ReleaseOffered(s, a) && !a.RequestApproval? && !a.Publish?
    requires r < |s.releases| && Doomed(s, r)
    requires Waiting(s.releases[r]) && !Publishable(s, s.releases[r])
    ensures Doomed(ApplyRelease(s, a), r)
  {
    hide Inv, Doomed, Publishable, Stamped, ReadyTasks, RollEach, AllApproved, ApprovalTask;
    ExtendItself(s.uats);
    var next := ApplyRelease(s, a);
    AlikeIsDoomedToo(s, next, r);
  }

  lemma PublishExtends(s: Desk, r: nat)
    requires r < |s.releases| && s.releases[r].tasks != []
    ensures UatsExtend(s.uats, PublishNow(s, r).uats)
    ensures PublishNow(s, r).releases == s.releases[r := s.releases[r].(status := Published)]
  {
    hide Each, UatsExtend;
    var rel := s.releases[r];
    var s1 := SetRelease(s, r, rel.(status := Published));
    EachExtends(s1.(qas := s1.qas + [Qa(rel.tasks[0], Some(r), Live, QaPending)]), rel.tasks, {ReadyToPublish}, PublishedLive);
  }

  lemma {:induction false} ApprovalTasksLeave(s: Desk, keys: seq<string>, p: Project, project: string, r: nat)
    ensures ApprovalTasks(s, keys, p, project, r).uats == s.uats
    ensures ApprovalTasks(s, keys, p, project, r).releases == s.releases
    decreases |keys|
  {
    if keys != [] {
      var user := ApproverUser(p, keys[0]);
      var s1 := if user.None? then s
        else s.(tasks := s.tasks + [MgmtTask("Release Approval", user, project, None).(release := Some(r))]);
      ApprovalTasksLeave(s1, keys[1..], p, project, r);
    }
  }

  /** Asking for approval changes one status and makes the first request, if one is required. */
  lemma AskApprovalDoes(s: Desk, r: nat)
    requires r < |s.releases|
    ensures var rel := s.releases[r];
      && AskApproval(s, r).releases == s.releases[r := rel.(status := ApprovalRequested)]
      && AskApproval(s, r).uats ==
           if rel.uatRequired && !HasUat(s.uats, r)
           then s.uats + [Uat(Some(r), rel.tasks, ProjectOf(s, rel.project).org, UatPending)] else s.uats
  {
    hide ApprovalTasks;
    var rel := s.releases[r];
    var p := ProjectOf(s, rel.project);
    ApprovalTasksLeave(SetRelease(s, r, rel.(status := ApprovalRequested)), p.approvers, p, rel.project, r);
  }

  lemma AskKeepsDoomed(s: Desk, r: nat)
    requires Inv(s) && ReleaseOffered(s, RequestApproval(r)) && Doomed(s, r)
    ensures Doomed(AskApproval(s, r), r)
  {
    hide AskApproval, HasUat, PendingFor, TasksSound, TicketsAgree, TicketsDone, ReleasesAgree, ReleasesSound, LiveChecksAgree;
    AskApprovalDoes(s, r);
  }

  lemma AskOther(s: Desk, asked: nat, r: nat)
    requires ReleaseOffered(s, RequestApproval(asked)) && Doomed(s, r) && asked != r
    ensures Doomed(AskApproval(s, asked), r)
  {
    AskApprovalDoes(s, asked);
    var next := AskApproval(s, asked);
    hide AskApproval, Doomed;
    assert next.releases[r] == s.releases[r];
    RequestElsewhere(s.uats, next.uats, asked, r);
    SameIsDoomed(s, next, r);
  }

  lemma RequestElsewhere(uats: seq<Uat>, after: seq<Uat>, asked: nat, r: nat)
    requires asked != r && |uats| <= |after| <= |uats| + 1 && after[..|uats|] == uats
    requires |after| > |uats| ==> after[|uats|].release == Some(asked)
    ensures HasUat(uats, r) <==> HasUat(after, r)
    ensures PendingFor(uats, r) <==> PendingFor(after, r)
  {
    assert forall i :: 0 <= i < |uats| ==> after[i] == uats[i];
    if HasUat(uats, r) {
      var i :| 0 <= i < |uats| && uats[i].release == Some(r);
      assert after[i].release == Some(r);
    }
    if PendingFor(uats, r) {
      var i :| 0 <= i < |uats| && uats[i].release == Some(r) && uats[i].status == UatPending;
      assert after[i] == uats[i];
    }
  }

  lemma SameIsDoomed(s: Desk, next: Desk, r: nat)
    requires r < |s.releases| && r < |next.releases| && next.releases[r] == s.releases[r]
    requires HasUat(s.uats, r) <==> HasUat(next.uats, r)
    requires PendingFor(s.uats, r) <==> PendingFor(next.uats, r)
    ensures Doomed(s, r) <==> Doomed(next, r)
  {
    hide HasUat, PendingFor;
  }

  lemma StepKeepsDoomed(s: Desk, a: Action, r: nat)
    requires Inv(s) && Offered(s, a) && Doomed(s, r)
    ensures Doomed(Apply(s, a), r)
  {
    match a
    case OnTask(t) =>
      TaskExtends(s, t);
      hide Doomed, ApplyTask, UatsExtend;
      AlikeIsDoomedToo(s, Apply(s, a), r);
    case OnTest(t) => TestKeepsDoomed(s, t, r);
    case OnTicket(t) =>
      TicketLeaves(s, t);
      hide Doomed, ApplyTicket;
      ExtendItself(s.uats);
      AlikeIsDoomedToo(s, Apply(s, a), r);
    case OnRelease(t) => ReleaseKeepsDoomed(s, t, r);
  }

  lemma {:induction false} RunKeepsDoomed(s: Desk, actions: seq<Action>, end: Desk, r: nat)
    requires Inv(s) && Run(s, actions, end) && Doomed(s, r)
    ensures Inv(end) && Doomed(end, r)
    decreases |actions|
  {
    hide Inv, Doomed;
    if actions != [] {
      StepKeeps(s, actions[0]);
      StepKeepsDoomed(s, actions[0], r);
      RunKeepsDoomed(Apply(s, actions[0]), actions[1..], end, r);
    }
  }

  /** Main: a doomed release waits for ever; no run approves, schedules or publishes it. */
  lemma DoomedIsHeldForever(s: Desk, end: Desk, r: nat)
    requires Reachable(s) && Leads(s, end) && Doomed(s, r)
    ensures r < |end.releases| && end.releases[r].status in {DraftRelease, ApprovalRequested}
    ensures !Clear(end, r) && !Publishable(end, end.releases[r])
  {
    hide Inv, Publishable, Clear;
    ReachableInv(s);
    var actions :| Run(s, actions, end);
    RunKeepsDoomed(s, actions, end, r);
    DoomedWaits(end, r);
  }
}
