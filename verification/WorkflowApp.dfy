/** The engine and the buttons as they run: fields updated in place, lists walked by loops. */
module WorkflowApp {
  import opened Workflow
  import opened WorkflowInvariant
  import opened WorkflowSteps
  import opened WorkflowRuns
  import opened WorkflowReleases
  import opened WorkflowButtons
  import opened WorkflowEngine
  import opened WorkflowOutcomes
  import opened WorkflowReleaseOutcomes

  lemma WithFollowUp(s: Desk, id: nat, to: Status)
    requires id < |s.tasks| && FollowUp(s, s.tasks[id], to).Some?
    ensures Transition(s, id, to) ==
      Transition(WithTask(s, id, Moved(s.tasks[id], to)), id, FollowUp(s, s.tasks[id], to).value)
  {
  }

  lemma WithoutFollowUp(s: Desk, id: nat, to: Status)
    requires id < |s.tasks| && FollowUp(s, s.tasks[id], to).None?
    ensures Transition(s, id, to) ==
      TicketFollows(Effects(WithTask(s, id, Moved(s.tasks[id], to)), id, s.tasks[id].status, to), id, to)
  {
    hide Effects, TicketFollows, Moved;
  }

  class App {
    var tasks: seq<Task>
    var tickets: seq<Ticket>
    var qas: seq<Qa>
    var uats: seq<Uat>
    var releases: seq<Release>
    var projects: map<string, Project>
    var requiredChecks: seq<string>

    function State(): Desk
      reads this
    {
      Desk(tasks, tickets, qas, uats, releases, projects, requiredChecks)
    }

    /** What every button keeps: the invariant of the desk. */
    ghost predicate Valid()
      reads this
    {
      Inv(State())
    }

    constructor ()
      ensures State() == EMPTY && Valid()
    {
      tasks, tickets, qas, uats, releases, projects, requiredChecks := [], [], [], [], [], map[], [];
    }

    // ----- the engine -----

    method NewMgmtTask(category: string, assignedTo: Option<string>, project: string, linked: Option<nat>)
      modifies this
      ensures State() == AddMgmtTask(old(State()), category, assignedTo, project, linked)
    {
      tasks := tasks + [MgmtTask(category, assignedTo, project, linked)];
    }

    /** `D.uat.find(…)`, newest first. */
    method FindOpenUat(org: string) returns (found: Option<nat>)
      ensures found == OpenUat(uats, org)
      ensures found.Some? ==> found.value < |uats|
    {
      var n := |uats|;
      assert uats[..n] == uats;
      while n > 0
        invariant n <= |uats| && OpenUat(uats, org) == OpenUat(uats[..n], org)
      {
        n := n - 1;
        assert uats[..n + 1][..n] == uats[..n];
        if uats[n].status == UatPending && uats[n].org == org && uats[n].release.None? {
          return Some(n);
        }
      }
      return None;
    }

    method JoinSignOff(id: nat, org: string)
      modifies this`uats
      ensures uats == JoinUat(old(uats), org, id)
    {
      var open := FindOpenUat(org);
      if open.None? {
        uats := uats + [Uat(None, [], org, UatPending)];
        open := Some(|uats| - 1);
      }
      var u := open.value;
      assert [] + [id] == [id];
      uats := uats[u := uats[u].(tasks := uats[u].tasks + [id])];
      assert old(OpenUat(uats, org)).None? ==> uats == old(uats) + [Uat(None, [id], org, UatPending)];
    }

    /** `taskIds.every(…)` */
    method EveryCompleted(ids: seq<nat>) returns (all: bool)
      ensures all == AllCompleted(State(), ids)
    {
      for k := 0 to |ids|
        invariant forall j :: 0 <= j < k ==> ids[j] < |tasks| && tasks[ids[j]].status == Completed
      {
        if ids[k] >= |tasks| || tasks[ids[k]].status != Completed {
          return false;
        }
      }
      return true;
    }

    method ResolveIfDone(id: nat)
      requires id < |tasks|
      modifies this`tickets
      ensures State() == Effects(old(State()), id, tasks[id].status, Completed)
    {
      var ticket := tasks[id].ticket;
      if ticket.Some? && ticket.value < |tickets| {
        var all := EveryCompleted(tickets[ticket.value].tasks);
        if all {
          tickets := tickets[ticket.value := tickets[ticket.value].(status := Resolved)];
        }
      }
    }

    method FollowTicket(id: nat, to: Status)
      requires id < |tasks|
      modifies this`tickets
      ensures State() == TicketFollows(old(State()), id, to)
    {
      var ticket := tasks[id].ticket;
      if ticket.Some? && ticket.value < |tickets| {
        var ti := ticket.value;
        if to in {TestingStaging, QaPassed, ReadyToPublish} && tickets[ti].status != Review {
          tickets := tickets[ti := tickets[ti].(status := Review)];
        }
        if to in {InProgress, ReturnedToDev} && !(tickets[ti].status in {Resolved, Closed}) {
          tickets := tickets[ti := tickets[ti].(status := TicketInProgress)];
        }
      }
    }

    method Enter(id: nat, from: Status, to: Status)
      requires id < |tasks| && tasks[id].status == to
      modifies this
      ensures State() == Effects(old(State()), id, from, to)
    {
      if to == CodeReview {
        NewMgmtTask("Review", tasks[id].reviewer, tasks[id].project, Some(id));
      }
      if to == TestingStaging {
        var retest := from in {FixSubmitted, ReturnedToDev};
        qas := qas + [Qa(id, None, if retest then Retest else FirstTest, QaPending)];
      }
      if to == ClientUat {
        JoinSignOff(id, ProjectOf(State(), tasks[id].project).org);
      }
      if to == Completed {
        ResolveIfDone(id);
      }
    }

    method WriteStatus(id: nat, to: Status)
      requires id < |tasks|
      modifies this`tasks
      ensures State() == WithTask(old(State()), id, Moved(old(tasks)[id], to))
    {
      var t := tasks[id];
      tasks := tasks[id := t.(history := t.history + [Entry(t.status, to)], status := to)];
      if to == CodeReview {
        if t.pr.None? {
          tasks := tasks[id := tasks[id].(pr := Some(ReviewRequested))];
        }
        tasks := tasks[id := tasks[id].(checks := Some(FRESH_CHECKS))];
      }
      if to == ReadyForQa {
        tasks := tasks[id := tasks[id].(pr := Some(PrApproved), staging := true)];
      }
    }

    method Settle(id: nat, from: Status, to: Status)
      requires id < |tasks| && tasks[id].status == to
      modifies this
      ensures State() == TicketFollows(Effects(old(State()), id, from, to), id, to)
    {
      hide Effects, TicketFollows;
      Enter(id, from, to);
      FollowTicket(id, to);
    }

    method Transit(id: nat, to: Status)
      requires id < |tasks|
      modifies this
      ensures State() == Transition(old(State()), id, to)
      decreases if to in {QaPassed, QaFailed, PublishedLive, LiveFailed} then 1 else 0
    {
      hide Moved, Effects, TicketFollows, Transition;
      var from := tasks[id].status;
      var t := tasks[id];
      if to in {QaPassed, QaFailed, PublishedLive, LiveFailed} {
        WithFollowUp(State(), id, to);
      } else {
        WithoutFollowUp(State(), id, to);
      }
      ProjectStays(t, to);
      WriteStatus(id, to);
      if to == QaPassed {
        var p := ProjectOf(State(), t.project);
        if p.uatRequired && t.clientVisible {
          Transit(id, ClientUat);
        } else {
          Transit(id, ReadyToPublish);
        }
        return;
      }
      if to == QaFailed {
        Transit(id, ReturnedToDev);
        return;
      }
      if to == PublishedLive {
        Transit(id, LiveVerification);
        return;
      }
      if to == LiveFailed {
        Transit(id, RollbackRequired);
        return;
      }
      Settle(id, from, to);
    }

    /** `taskIds.forEach(id => { if (… status …) transition })` */
    method ForEach(ids: seq<nat>, when: set<Status>, to: Status)
      modifies this
      ensures State() == Each(old(State()), ids, when, to)
    {
      hide Transition;
      ghost var was := State();
      var k := 0;
      assert ids[0..] == ids;
      while k < |ids|
        invariant k <= |ids| && Each(was, ids, when, to) == Each(State(), ids[k..], when, to)
      {
        assert ids[k..][1..] == ids[k + 1..];
        if ids[k] < |tasks| && tasks[ids[k]].status in when {
          Transit(ids[k], to);
        }
        k := k + 1;
      }
    }

    method Write(id: nat, t: Task)
      requires id < |tasks|
      modifies this`tasks
      ensures State() == WithTask(old(State()), id, t)
    {
      tasks := tasks[id := t];
    }

    // ----- task buttons -----

    method SaveTask(project: string, category: string, draft: bool, assignee: Option<string>,
        reviewer: Option<string>, clientVisible: bool)
      requires TaskOffered(State(), CreateTask(project, category, draft, assignee, reviewer, clientVisible))
      requires Valid()
      modifies this
      ensures State() == ApplyTask(old(State()), CreateTask(project, category, draft, assignee, reviewer, clientVisible))
      ensures Valid() && Safe(old(State()), State())
      ensures tasks[..|old(tasks)|] == old(tasks) && |tasks| == |old(tasks)| + 1
      ensures tasks[|old(tasks)|].kind == Dev <==> category == "Development"
      ensures !QaStands(tasks[|old(tasks)|].history) && tasks[|old(tasks)|].release.None?
    {
      ghost var s := State();
      StepKeeps(s, OnTask(CreateTask(project, category, draft, assignee, reviewer, clientVisible)));
      CreatedIsUntested(s, CreateTask(project, category, draft, assignee, reviewer, clientVisible));
      hide Inv, Steady, Effective, QaStands, InReview, UnderTest, OnlyTask, BackAgain, NeedsQa;
      var kind := if category == "Development" then Dev else Mgmt;
      tasks := tasks + [Task(
        kind, category, if draft then Draft else Assigned, None, project, assignee, reviewer, None, None, None,
        clientVisible, None, None, false, false, false, [])];
    }

    method DoAssign(id: nat, to: string, reviewer: Option<string>)
      requires TaskOffered(State(), AssignTask(id, to, reviewer))
      modifies this
      ensures State() == ApplyTask(old(State()), AssignTask(id, to, reviewer))
    {
      Write(id, tasks[id].(assignedTo := Some(to), reviewer := reviewer));
      if tasks[id].status == Draft {
        Write(id, tasks[id].(status := Assigned));
      }
    }

    method PressAssign(id: nat, to: string, reviewer: Option<string>)
      requires TaskOffered(State(), AssignTask(id, to, reviewer))
      requires Valid()
      modifies this
      ensures State() == ApplyTask(old(State()), AssignTask(id, to, reviewer))
      ensures Valid() && Safe(old(State()), State())
      ensures OnlyTask(old(tasks), tasks, id) && tasks[id].history == old(tasks)[id].history
      ensures TaskOffered(State(), Start(id)) && tasks[id].assignedTo == Some(to)
    {
      ghost var s := State();
      StepKeeps(s, OnTask(AssignTask(id, to, reviewer)));
      AssignedCanStart(s, id, to, reviewer);
      hide Inv, Steady, Effective, QaStands, InReview, UnderTest, OnlyTask, BackAgain, NeedsQa;
      DoAssign(id, to, reviewer);
    }

    method PressStart(id: nat)
      requires TaskOffered(State(), Start(id))
      requires Valid()
      modifies this
      ensures State() == ApplyTask(old(State()), Start(id))
      ensures Valid() && Safe(old(State()), State())
      ensures id < |tasks| && tasks[id].status == InProgress && !QaStands(tasks[id].history)
    {
      ghost var s := State();
      StepKeeps(s, OnTask(Start(id)));
      StartVoids(s, id);
      hide Inv, Steady, Effective, QaStands, InReview, UnderTest, OnlyTask, BackAgain, NeedsQa;
      Transit(id, InProgress);
    }

    method DoBlock(id: nat, who: string)
      requires TaskOffered(State(), Block(id, who))
      modifies this
      ensures State() == ApplyTask(old(State()), Block(id, who))
    {
      hide Transition;
      var project := tasks[id].project;
      Write(id, tasks[id].(prev := Some(tasks[id].status)));
      Transit(id, Blocked);
      NewMgmtTask("Management", Some(who), project, Some(id));
    }

    method PressBlock(id: nat, who: string)
      requires TaskOffered(State(), Block(id, who))
      requires Valid()
      modifies this
      ensures State() == ApplyTask(old(State()), Block(id, who))
      ensures Valid() && Safe(old(State()), State())
      ensures id < |tasks| && tasks[id].status == Blocked && Effective(tasks[id]) == old(tasks)[id].status
      ensures TaskOffered(State(), Unblock(id))
      ensures BackAgain(old(State()), ApplyTask(State(), Unblock(id)), id)
    {
      ghost var s := State();
      StepKeeps(s, OnTask(Block(id, who)));
      BlockRemembers(s, id, who);
      BlockRoundTrip(s, id, who);
      hide Inv, Steady, Effective, QaStands, InReview, UnderTest, OnlyTask, BackAgain, NeedsQa;
      DoBlock(id, who);
    }

    method DoUnblock(id: nat)
      requires TaskOffered(State(), Unblock(id))
      modifies this
      ensures State() == ApplyTask(old(State()), Unblock(id))
    {
      hide Transition;
      Transit(id, if tasks[id].prev.Some? then tasks[id].prev.value else InProgress);
    }

    method PressUnblock(id: nat)
      requires TaskOffered(State(), Unblock(id))
      requires Valid()
      modifies this
      ensures State() == ApplyTask(old(State()), Unblock(id))
      ensures Valid() && Safe(old(State()), State())
      ensures id < |tasks| && tasks[id].status == Effective(old(tasks)[id])
      ensures NeedsQa(tasks[id].status) ==> QaStands(old(tasks)[id].history)
    {
      ghost var s := State();
      StepKeeps(s, OnTask(Unblock(id)));
      UnblockReturns(s, id);
      hide Inv, Steady, Effective, QaStands, InReview, UnderTest, OnlyTask, BackAgain, NeedsQa;
      DoUnblock(id);
    }

    method DoComplete(id: nat, clientVisible: bool)
      requires TaskOffered(State(), DevComplete(id, clientVisible)) || TaskOffered(State(), MgmtComplete(id))
      modifies this
      ensures State() == ApplyTask(old(State()),
        if old(tasks[id].kind) == Mgmt then MgmtComplete(id) else DevComplete(id, clientVisible))
    {
      hide Transition;
      if tasks[id].kind == Mgmt {
        Transit(id, Completed);
      } else {
        Write(id, tasks[id].(clientVisible := clientVisible));
        Transit(id, DevCompleted);
      }
    }

    method PressComplete(id: nat, clientVisible: bool)
      requires TaskOffered(State(), DevComplete(id, clientVisible)) || TaskOffered(State(), MgmtComplete(id))
      requires Valid()
      modifies this
      ensures State() == ApplyTask(old(State()),
        if old(tasks[id].kind) == Mgmt then MgmtComplete(id) else DevComplete(id, clientVisible))
      ensures Valid() && Safe(old(State()), State())
      ensures id < |tasks| && OnlyTask(old(tasks), tasks, id) && tickets == old(tickets)
      ensures tasks[id].status == if old(tasks)[id].kind == Mgmt then Completed else DevCompleted
    {
      ghost var s := State();
      StepKeeps(s, OnTask(if tasks[id].kind == Mgmt then MgmtComplete(id) else DevComplete(id, clientVisible)));
      CompleteByHand(s, id, clientVisible);
      hide Inv, Steady, Effective, QaStands, InReview, UnderTest, OnlyTask, BackAgain, NeedsQa;
      DoComplete(id, clientVisible);
    }

    method DoRequestReview(id: nat, reviewer: Option<string>)
      requires TaskOffered(State(), RequestReview(id, reviewer))
      modifies this
      ensures State() == ApplyTask(old(State()), RequestReview(id, reviewer))
    {
      hide Transition;
      Write(id, tasks[id].(reviewer := reviewer));
      Transit(id, CodeReview);
    }

    method PressRequestReview(id: nat, reviewer: Option<string>)
      requires TaskOffered(State(), RequestReview(id, reviewer))
      requires Valid()
      modifies this
      ensures State() == ApplyTask(old(State()), RequestReview(id, reviewer))
      ensures Valid() && Safe(old(State()), State())
      ensures InReview(State(), id, reviewer)
    {
      ghost var s := State();
      StepKeeps(s, OnTask(RequestReview(id, reviewer)));
      ReviewTaskIsFound(s, id, reviewer);
      hide Inv, Steady, Effective, QaStands, InReview, UnderTest, OnlyTask, BackAgain, NeedsQa;
      DoRequestReview(id, reviewer);
    }

    /** `D.tasks.find(x => x.linkedTask === id && …)`, newest first. */
    method FindReviewTask(id: nat) returns (found: Option<nat>)
      ensures found == ReviewTask(tasks, id)
    {
      var n := |tasks|;
      assert tasks[..n] == tasks;
      while n > 0
        invariant n <= |tasks| && ReviewTask(tasks, id) == ReviewTask(tasks[..n], id)
      {
        n := n - 1;
        assert tasks[..n + 1][..n] == tasks[..n];
        if tasks[n].linked == Some(id) && tasks[n].category == "Review" && tasks[n].status != Completed {
          return Some(n);
        }
      }
      return None;
    }

    method FinishTask(found: Option<nat>)
      requires found.Some? ==> found.value < |tasks|
      modifies this
      ensures State() == Finish(old(State()), found)
    {
      if found.Some? {
        Write(found.value, tasks[found.value].(status := Completed));
      }
    }

    method DoApprove(id: nat)
      requires TaskOffered(State(), ApproveReview(id))
      modifies this
      ensures State() == ApplyTask(old(State()), ApproveReview(id))
    {
      hide Transition, ChecksOk, ReviewTask;
      var ok := ChecksOk(State(), tasks[id]);
      Write(id, tasks[id].(pr := Some(PrApproved), reviewApproved := true));
      var found := FindReviewTask(id);
      FinishTask(found);
      if ok {
        Transit(id, ReadyForQa);
      } else {
        var checks := if tasks[id].checks.Some? then tasks[id].checks.value else map[];
        checks := checks["api" := Passing];
        checks := checks["security" := Passing];
        Write(id, tasks[id].(checks := Some(checks)));
        if ChecksOk(State(), tasks[id]) {
          Transit(id, ReadyForQa);
        }
      }
    }

    method PressApprove(id: nat)
      requires TaskOffered(State(), ApproveReview(id))
      requires Valid()
      modifies this
      ensures State() == ApplyTask(old(State()), ApproveReview(id))
      ensures Valid() && Safe(old(State()), State())
      ensures ApprovalShows(old(State()), State(), id)
    {
      ghost var s := State();
      StepKeeps(s, OnTask(ApproveReview(id)));
      ApprovalMeans(s, id);
      hide Inv, Steady, Effective, QaStands, InReview, UnderTest, OnlyTask, BackAgain, NeedsQa, ApprovalShows;
      DoApprove(id);
    }

    method DoRequestChanges(id: nat)
      requires TaskOffered(State(), RequestChanges(id))
      modifies this
      ensures State() == ApplyTask(old(State()), RequestChanges(id))
    {
      hide Transition;
      Write(id, tasks[id].(pr := Some(ChangesRequested)));
      Transit(id, ReturnedToDev);
    }

    method PressRequestChanges(id: nat)
      requires TaskOffered(State(), RequestChanges(id))
      requires Valid()
      modifies this
      ensures State() == ApplyTask(old(State()), RequestChanges(id))
      ensures Valid() && Safe(old(State()), State())
      ensures id < |tasks| && tasks[id].status == ReturnedToDev && !QaStands(tasks[id].history)
    {
      ghost var s := State();
      StepKeeps(s, OnTask(RequestChanges(id)));
      ChangesVoid(s, id);
      hide Inv, Steady, Effective, QaStands, InReview, UnderTest, OnlyTask, BackAgain, NeedsQa;
      DoRequestChanges(id);
    }

    method DoOverride(id: nat)
      requires TaskOffered(State(), OverrideChecks(id))
      modifies this
      ensures State() == ApplyTask(old(State()), OverrideChecks(id))
    {
      hide Transition, ChecksOk;
      Write(id, tasks[id].(overridden := true));
      if tasks[id].reviewApproved || tasks[id].pr == Some(PrApproved) {
        Transit(id, ReadyForQa);
      }
    }

    method PressOverride(id: nat)
      requires TaskOffered(State(), OverrideChecks(id))
      requires Valid()
      modifies this
      ensures State() == ApplyTask(old(State()), OverrideChecks(id))
      ensures Valid() && Safe(old(State()), State())
      ensures id < |tasks| && ChecksOk(State(), tasks[id])
      ensures tasks[id].status == ReadyForQa <==> old(tasks)[id].reviewApproved || old(tasks)[id].pr == Some(PrApproved)
    {
      ghost var s := State();
      StepKeeps(s, OnTask(OverrideChecks(id)));
      OverrideMoves(s, id);
      hide Inv, Steady, Effective, QaStands, InReview, UnderTest, OnlyTask, BackAgain, NeedsQa;
      DoOverride(id);
    }

    method DoSendForTesting(id: nat)
      requires TaskOffered(State(), SendForTesting(id))
      modifies this
      ensures State() == ApplyTask(old(State()), SendForTesting(id))
    {
      hide Transition;
      Transit(id, TestingStaging);
    }

    method PressSendForTesting(id: nat)
      requires TaskOffered(State(), SendForTesting(id))
      requires Valid()
      modifies this
      ensures State() == ApplyTask(old(State()), SendForTesting(id))
      ensures Valid() && Safe(old(State()), State())
      ensures UnderTest(State(), id)
    {
      ghost var s := State();
      StepKeeps(s, OnTask(SendForTesting(id)));
      SendingOpensTest(s, id);
      hide Inv, Steady, Effective, QaStands, InReview, UnderTest, OnlyTask, BackAgain, NeedsQa;
      DoSendForTesting(id);
    }

    method DoSubmitFix(id: nat)
      requires TaskOffered(State(), SubmitFix(id))
      modifies this
      ensures State() == ApplyTask(old(State()), SubmitFix(id))
    {
      hide Transition;
      Transit(id, FixSubmitted);
      Transit(id, TestingStaging);
    }

    method PressSubmitFix(id: nat)
      requires TaskOffered(State(), SubmitFix(id))
      requires Valid()
      modifies this
      ensures State() == ApplyTask(old(State()), SubmitFix(id))
      ensures Valid() && Safe(old(State()), State())
      ensures UnderTest(State(), id) && qas[|qas| - 1].kind == Retest
    {
      ghost var s := State();
      StepKeeps(s, OnTask(SubmitFix(id)));
      FixOpensRetest(s, id);
      hide Inv, Steady, Effective, QaStands, InReview, UnderTest, OnlyTask, BackAgain, NeedsQa;
      DoSubmitFix(id);
    }

    // ----- test and sign-off buttons -----

    method DoResult(q: nat, pass: bool)
      requires TestOffered(State(), TestResult(q, pass)) || TestOffered(State(), VerifyLive(q, pass))
      modifies this
      ensures State() == ApplyTest(old(State()),
        if old(qas[q].kind) == Live then VerifyLive(q, pass) else TestResult(q, pass))
    {
      hide Transition, Each;
      var qa := qas[q];
      qas := qas[q := qa.(status := if pass then QaOk else QaBad)];
      if qa.kind == Live {
        var r := qa.release.value;
        var ids := releases[r].tasks;
        releases := releases[r := releases[r].(status := if pass then Verified else Failed)];
        if pass {
          ForEach(ids, {LiveVerification}, Completed);
        } else {
          ForEach(ids, {LiveVerification}, LiveFailed);
        }
      } else if pass {
        Transit(qa.task, QaPassed);
      } else {
        Transit(qa.task, QaFailed);
      }
    }

    method PressResult(q: nat, pass: bool)
      requires TestOffered(State(), TestResult(q, pass)) || TestOffered(State(), VerifyLive(q, pass))
      requires Valid()
      modifies this
      ensures State() == ApplyTest(old(State()),
        if old(qas[q].kind) == Live then VerifyLive(q, pass) else TestResult(q, pass))
      ensures Valid() && Safe(old(State()), State())
      ensures old(qas)[q].kind != Live ==> ResultShows(old(State()), State(), q, pass)
      ensures old(qas)[q].kind == Live ==> LiveResultShows(old(State()), State(), q, pass)
    {
      ghost var s := State();
      StepKeeps(s, OnTest(if qas[q].kind == Live then VerifyLive(q, pass) else TestResult(q, pass)));
      if qas[q].kind == Live { LiveResultMeans(s, q, pass); } else { ResultMeans(s, q, pass); }
      hide Inv, Steady, Effective, QaStands, InReview, UnderTest, OnlyTask, BackAgain, NeedsQa, ResultShows, LiveResultShows;
      DoResult(q, pass);
    }

    method EveryApproved(r: Release) returns (all: bool)
      ensures all == AllApproved(r)
    {
      all := forall k :: k in r.approvals ==> r.approvals[k];
    }

    method DoDecide(u: nat, approve: bool)
      requires TestOffered(State(), DecideUat(u, approve))
      modifies this
      ensures State() == ApplyTest(old(State()), DecideUat(u, approve))
    {
      hide Each, AllApproved;
      var uat := uats[u];
      uats := uats[u := uat.(status := if approve then UatApproved else UatChanges)];
      if approve {
        ForEach(uat.tasks, {ClientUat}, ReadyToPublish);
      } else {
        ForEach(uat.tasks, {ClientUat, ReadyToPublish, QaPassed}, ReturnedToDev);
      }
      if uat.release.Some? && uat.release.value < |releases| {
        var r := uat.release.value;
        releases := releases[r := releases[r].(uatStatus := Some(if approve then UatApproved else UatChanges))];
        if approve {
          if "client" in releases[r].approvals {
            releases := releases[r := releases[r].(approvals := releases[r].approvals["client" := true])];
          }
          var all := EveryApproved(releases[r]);
          if all {
            releases := releases[r := releases[r].(status := ReleaseApproved)];
          }
        } else {
          releases := releases[r := releases[r].(status := DraftRelease)];
        }
      }
    }

    method PressDecide(u: nat, approve: bool)
      requires TestOffered(State(), DecideUat(u, approve))
      requires Valid()
      modifies this
      ensures State() == ApplyTest(old(State()), DecideUat(u, approve))
      ensures Valid() && Safe(old(State()), State())
      ensures DecisionShows(old(State()), State(), u, approve)
    {
      ghost var s := State();
      StepKeeps(s, OnTest(DecideUat(u, approve)));
      DecisionMeans(s, u, approve);
      hide Inv, Steady, Effective, QaStands, InReview, UnderTest, OnlyTask, BackAgain, NeedsQa, DecisionShows;
      DoDecide(u, approve);
    }

    // ----- ticket buttons -----

    method AddLinkedTask(ti: nat, t: Task)
      requires ti < |tickets|
      modifies this
      ensures State() == AddLinked(old(State()), ti, t)
    {
      tasks := tasks + [t];
      tickets := tickets[ti := tickets[ti].(tasks := tickets[ti].tasks + [|tasks| - 1])];
      tickets := tickets[ti := tickets[ti].(status := TicketInProgress)];
    }

    method PressConvert(ti: nat, project: string, first: bool, second: bool, assignee: Option<string>, clientVisible: bool)
      requires TicketOffered(State(), Convert(ti, project, first, second, assignee, clientVisible))
      requires Valid()
      modifies this
      ensures State() == ApplyTicket(old(State()), Convert(ti, project, first, second, assignee, clientVisible))
      ensures Valid() && Safe(old(State()), State())
      ensures tasks[..|old(tasks)|] == old(tasks)
      ensures ti < |tickets| && tickets[ti].tasks == old(tickets)[ti].tasks + NewIds(|old(tasks)|, |tasks| - |old(tasks)|)
      ensures first || second ==> !TicketOffered(State(), Resolve(ti))
    {
      ghost var s := State();
      StepKeeps(s, OnTicket(Convert(ti, project, first, second, assignee, clientVisible)));
      ConvertedWaits(s, Convert(ti, project, first, second, assignee, clientVisible));
      hide Inv, Steady, Effective, QaStands, InReview, UnderTest, OnlyTask, BackAgain, NeedsQa;
      var t := NewDevTask(
        project, Assigned, assignee, ProjectOf(State(), project).reviewer, Some(ti), clientVisible, []);
      if first {
        AddLinkedTask(ti, t);
      }
      if second {
        AddLinkedTask(ti, t);
      }
      tickets := tickets[ti := tickets[ti].(status := TicketInProgress)];
    }

    method PressStartWork(ti: nat, me: string, clientVisible: bool)
      requires TicketOffered(State(), StartWork(ti, me, clientVisible))
      requires Valid()
      modifies this
      ensures State() == ApplyTicket(old(State()), StartWork(ti, me, clientVisible))
      ensures Valid() && Safe(old(State()), State())
      ensures |tasks| == |old(tasks)| + 1 && TaskOffered(State(), DevComplete(|old(tasks)|, clientVisible))
      ensures !TicketOffered(State(), Resolve(ti))
    {
      ghost var s := State();
      StepKeeps(s, OnTicket(StartWork(ti, me, clientVisible)));
      StartedWaits(s, ti, me, clientVisible);
      hide Inv, Steady, Effective, QaStands, InReview, UnderTest, OnlyTask, BackAgain, NeedsQa;
      var p := tickets[ti].project;
      AddLinkedTask(ti, NewDevTask(
        p, InProgress, Some(me), ProjectOf(State(), p).reviewer, Some(ti), clientVisible, [Entry(Assigned, InProgress)]));
    }

    method PressTicket(ti: nat, a: TicketAction)
      requires a == Resolve(ti) || a == Close(ti) || a == Reopen(ti)
      requires TicketOffered(State(), a)
      requires Valid()
      modifies this
      ensures State() == ApplyTicket(old(State()), a)
      ensures Valid() && Safe(old(State()), State())
      ensures ti < |tickets| && AllCompleted(State(), tickets[ti].tasks)
      ensures TicketOffered(State(), Close(ti)) <==> a == Resolve(ti)
      ensures TicketOffered(State(), Resolve(ti)) <==> a == Reopen(ti)
    {
      ghost var s := State();
      StepKeeps(s, OnTicket(a));
      TicketCanGoOn(s, a);
      hide Inv, Steady, Effective, QaStands, InReview, UnderTest, OnlyTask, BackAgain, NeedsQa;
      var status := if a == Resolve(ti) then Resolved else if a == Close(ti) then Closed else Reopened;
      tickets := tickets[ti := tickets[ti].(status := status)];
    }

    // ----- release buttons -----

    /** The ready tasks of the project, newest first. */
    method CollectReady(project: string) returns (ids: seq<nat>)
      ensures ids == ReadyTasks(tasks, project, |tasks|)
    {
      ids := [];
      var n := |tasks|;
      while n > 0
        invariant 0 <= n <= |tasks| && ids + ReadyTasks(tasks, project, n) == ReadyTasks(tasks, project, |tasks|)
      {
        n := n - 1;
        assert ids + ([n] + ReadyTasks(tasks, project, n)) == ids + [n] + ReadyTasks(tasks, project, n);
        assert [] + ReadyTasks(tasks, project, n) == ReadyTasks(tasks, project, n);
        if tasks[n].project == project && tasks[n].status == ReadyToPublish && tasks[n].release.None? {
          ids := ids + [n];
        }
      }
    }

    method Stamp(ids: seq<nat>, r: nat)
      modifies this`tasks
      ensures tasks == Stamped(old(tasks), ids, r)
    {
      ghost var was := tasks;
      var k := 0;
      assert ids[0..] == ids;
      while k < |ids|
        invariant k <= |ids| && Stamped(was, ids, r) == Stamped(tasks, ids[k..], r)
      {
        assert ids[k..][1..] == ids[k + 1..];
        if ids[k] < |tasks| {
          tasks := tasks[ids[k] := tasks[ids[k]].(release := Some(r))];
        }
        k := k + 1;
      }
    }

    method DoCreateRelease(project: string, includeReady: bool)
      requires ReleaseOffered(State(), CreateRelease(project, includeReady))
      modifies this
      ensures State() == ApplyRelease(old(State()), CreateRelease(project, includeReady))
    {
      hide Stamped, ReadyTasks;
      var p := ProjectOf(State(), project);
      var ids := [];
      if includeReady {
        ids := CollectReady(project);
      }
      Stamp(ids, |releases|);
      releases := releases + [
        Release(project, DraftRelease, ids, map k | k in p.approvers :: false, p.uatRequired, None)];
    }

    method PressCreateRelease(project: string, includeReady: bool)
      requires ReleaseOffered(State(), CreateRelease(project, includeReady))
      requires Valid()
      modifies this
      ensures State() == ApplyRelease(old(State()), CreateRelease(project, includeReady))
      ensures Valid() && Safe(old(State()), State())
      ensures CreationShows(old(State()), State(), project, includeReady)
    {
      ghost var s := State();
      StepKeeps(s, OnRelease(CreateRelease(project, includeReady)));
      CreatingMeans(s, project, includeReady);
      hide Inv, Steady, Effective, QaStands, InReview, UnderTest, OnlyTask, BackAgain, NeedsQa, CreationShows;
      DoCreateRelease(project, includeReady);
    }

    method DoAddToRelease(id: nat, r: nat)
      requires ReleaseOffered(State(), AddToRelease(id, r))
      modifies this
      ensures State() == ApplyRelease(old(State()), AddToRelease(id, r))
    {
      releases := releases[r := releases[r].(tasks := releases[r].tasks + [id])];
      tasks := tasks[id := tasks[id].(release := Some(r))];
      if releases[r].status == ReleaseApproved {
        releases := releases[r := releases[r].(status := ApprovalRequested)];
        releases := releases[r := releases[r].(approvals := map k | k in releases[r].approvals :: false)];
      }
    }

    method PressAddToRelease(id: nat, r: nat)
      requires ReleaseOffered(State(), AddToRelease(id, r))
      requires Valid()
      modifies this
      ensures State() == ApplyRelease(old(State()), AddToRelease(id, r))
      ensures Valid() && Safe(old(State()), State())
      ensures AdditionShows(old(State()), State(), id, r)
    {
      ghost var s := State();
      StepKeeps(s, OnRelease(AddToRelease(id, r)));
      AddingMeans(s, id, r);
      hide Inv, Steady, Effective, QaStands, InReview, UnderTest, OnlyTask, BackAgain, NeedsQa, AdditionShows;
      DoAddToRelease(id, r);
    }

    method AskApprovers(keys: seq<string>, p: Project, project: string, r: nat)
      modifies this
      ensures State() == ApprovalTasks(old(State()), keys, p, project, r)
    {
      ghost var was := State();
      var k := 0;
      assert keys[0..] == keys;
      while k < |keys|
        invariant k <= |keys| && ApprovalTasks(was, keys, p, project, r) == ApprovalTasks(State(), keys[k..], p, project, r)
      {
        assert keys[k..][1..] == keys[k + 1..];
        var user := ApproverUser(p, keys[k]);
        if user.Some? {
          tasks := tasks + [MgmtTask("Release Approval", user, project, None).(release := Some(r))];
        }
        k := k + 1;
      }
    }

    method HasSignOff(r: nat) returns (found: bool)
      ensures found <==> exists i :: 0 <= i < |uats| && uats[i].release == Some(r)
    {
      for i := 0 to |uats|
        invariant forall j :: 0 <= j < i ==> uats[j].release != Some(r)
      {
        if uats[i].release == Some(r) {
          return true;
        }
      }
      return false;
    }

    method DoRequestApproval(r: nat)
      requires ReleaseOffered(State(), RequestApproval(r))
      modifies this
      ensures State() == ApplyRelease(old(State()), RequestApproval(r))
    {
      hide ApprovalTasks, ApproverUser;
      var rel := releases[r];
      var p := ProjectOf(State(), rel.project);
      var found := HasSignOff(r);
      releases := releases[r := rel.(status := ApprovalRequested)];
      AskApprovers(p.approvers, p, rel.project, r);
      if rel.uatRequired && !found {
        uats := uats + [Uat(Some(r), rel.tasks, p.org, UatPending)];
      }
    }

    method PressRequestApproval(r: nat)
      requires ReleaseOffered(State(), RequestApproval(r))
      requires Valid()
      modifies this
      ensures State() == ApplyRelease(old(State()), RequestApproval(r))
      ensures Valid() && Safe(old(State()), State())
      ensures RequestShows(old(State()), State(), r)
    {
      ghost var s := State();
      StepKeeps(s, OnRelease(RequestApproval(r)));
      AskingMeans(s, r);
      hide Inv, Steady, Effective, QaStands, InReview, UnderTest, OnlyTask, BackAgain, NeedsQa, RequestShows;
      DoRequestApproval(r);
    }

    method FindApprovalTask(r: nat, me: string) returns (found: Option<nat>)
      ensures found == ApprovalTask(tasks, r, me)
    {
      var n := |tasks|;
      assert tasks[..n] == tasks;
      while n > 0
        invariant n <= |tasks| && ApprovalTask(tasks, r, me) == ApprovalTask(tasks[..n], r, me)
      {
        n := n - 1;
        assert tasks[..n + 1][..n] == tasks[..n];
        if tasks[n].release == Some(r) && tasks[n].category == "Release Approval" && tasks[n].assignedTo == Some(me) &&
           tasks[n].status != Completed
        {
          return Some(n);
        }
      }
      return None;
    }

    method DoApproveRelease(r: nat, key: string, me: string)
      requires ReleaseOffered(State(), ApproveRelease(r, key, me))
      modifies this
      ensures State() == ApplyRelease(old(State()), ApproveRelease(r, key, me))
    {
      hide AllApproved, ApprovalTask;
      releases := releases[r := releases[r].(approvals := releases[r].approvals[key := true])];
      var all := EveryApproved(releases[r]);
      if all && (!releases[r].uatRequired || releases[r].uatStatus == Some(UatApproved)) {
        releases := releases[r := releases[r].(status := ReleaseApproved)];
      }
      var found := FindApprovalTask(r, me);
      FinishTask(found);
    }

    method PressApproveRelease(r: nat, key: string, me: string)
      requires ReleaseOffered(State(), ApproveRelease(r, key, me))
      requires Valid()
      modifies this
      ensures State() == ApplyRelease(old(State()), ApproveRelease(r, key, me))
      ensures Valid() && Safe(old(State()), State())
      ensures SlotShows(old(State()), State(), r, key, me)
    {
      ghost var s := State();
      StepKeeps(s, OnRelease(ApproveRelease(r, key, me)));
      ApprovingMeans(s, r, key, me);
      hide Inv, Steady, Effective, QaStands, InReview, UnderTest, OnlyTask, BackAgain, NeedsQa, SlotShows;
      DoApproveRelease(r, key, me);
    }

    method DoPublish(r: nat, scheduled: bool)
      requires ReleaseOffered(State(), ReleaseAction.Publish(r))
      modifies this
      ensures State() == ApplyRelease(old(State()), if scheduled then Schedule(r) else ReleaseAction.Publish(r))
    {
      hide Each, Publishable;
      PublishableHasTasks(r);
      if scheduled {
        releases := releases[r := releases[r].(status := Scheduled)];
        return;
      }
      releases := releases[r := releases[r].(status := Published)];
      qas := qas + [Qa(releases[r].tasks[0], Some(r), Live, QaPending)];
      ForEach(releases[r].tasks, {ReadyToPublish}, PublishedLive);
    }

    method PressPublish(r: nat, scheduled: bool)
      requires ReleaseOffered(State(), ReleaseAction.Publish(r))
      requires Valid()
      modifies this
      ensures State() == ApplyRelease(old(State()), if scheduled then Schedule(r) else ReleaseAction.Publish(r))
      ensures Valid() && Safe(old(State()), State())
      ensures !scheduled ==> PublicationShows(old(State()), State(), r)
      ensures scheduled ==> State() == old(State()).(releases := old(releases)[r := old(releases)[r].(status := Scheduled)])
    {
      ghost var s := State();
      StepKeeps(s, OnRelease(if scheduled then Schedule(r) else ReleaseAction.Publish(r)));
      if !scheduled { PublishingMeans(s, r); }
      hide Inv, Steady, Effective, QaStands, InReview, UnderTest, OnlyTask, BackAgain, NeedsQa, PublicationShows;
      DoPublish(r, scheduled);
    }

    lemma PublishableHasTasks(r: nat)
      requires r < |releases| && Publishable(State(), releases[r])
      ensures releases[r].tasks != []
    {
    }

    method RollTasks(ids: seq<nat>)
      modifies this`tasks
      ensures tasks == RollEach(old(tasks), ids)
    {
      ghost var was := tasks;
      var k := 0;
      assert ids[0..] == ids;
      while k < |ids|
        invariant k <= |ids| && RollEach(was, ids) == RollEach(tasks, ids[k..])
      {
        assert ids[k..][1..] == ids[k + 1..];
        var id := ids[k];
        if id < |tasks| && tasks[id].status in {LiveFailed, RollbackRequired, LiveVerification, PublishedLive} {
          var t := tasks[id];
          tasks := tasks[id := t.(status := ReturnedToDev, history := t.history + [Entry(RollbackRequired, ReturnedToDev)])];
        }
        assert id < |tasks| ==> tasks[id := tasks[id]] == tasks;
        k := k + 1;
      }
    }

    method PressRollback(r: nat)
      requires ReleaseOffered(State(), Rollback(r))
      requires Valid()
      modifies this
      ensures State() == ApplyRelease(old(State()), Rollback(r))
      ensures Valid() && Safe(old(State()), State())
      ensures RollbackShows(old(State()), State(), r)
    {
      ghost var s := State();
      StepKeeps(s, OnRelease(Rollback(r)));
      RollingBackMeans(s, r);
      hide Inv, Steady, Effective, QaStands, InReview, UnderTest, OnlyTask, BackAgain, NeedsQa, RollbackShows;
      hide RollEach;
      releases := releases[r := releases[r].(status := RolledBack)];
      RollTasks(releases[r].tasks);
    }
  }
}
