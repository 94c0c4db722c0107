/** Every task, test and ticket button keeps the invariant. */
module WorkflowSteps {
  import opened Workflow
  import opened WorkflowInvariant

  /** What every button owes: the invariant, and that nothing completed is undone. */
  predicate Safe(s: Desk, after: Desk) {
    Inv(after) && Steady(s.tasks, after.tasks)
  }

  /** What every button but closing and reopening owes besides: resolved and closed tickets stay as they are. */
  predicate Keeps(s: Desk, after: Desk) {
    Safe(s, after) && TicketsHold(s.tickets, after.tickets)
  }

  lemma SafeTrans(a: Desk, b: Desk, c: Desk)
    requires Safe(a, b) && Safe(b, c)
    ensures Safe(a, c)
  {
    hide Inv;
  }

  lemma KeepsTrans(a: Desk, b: Desk, c: Desk)
    requires Keeps(a, b) && Keeps(b, c)
    ensures Keeps(a, c)
  {
    hide Inv, Steady;
    SafeTrans(a, b, c);
  }

  lemma OnlyTaskSettles(before: seq<Task>, after: seq<Task>, id: nat)
    requires AllRest(before) && OnlyTask(before, after, id)
    requires before[id].kind == Dev && before[id].status == Completed ==> after[id].status == Completed
    requires !Transient(after[id].status)
    ensures AllRest(after) && Steady(before, after)
  {
  }

  /** Rewriting one task without touching its links. */
  lemma PutSettles(s: Desk, id: nat, t: Task)
    requires Inv(s) && id < |s.tasks|
    requires Sound(t) && SameLinks(s.tasks[id], t) && !Transient(t.status)
    requires s.tasks[id].status == Completed ==> t.status == Completed
    ensures Keeps(s, WithTask(s, id, t))
  {
    hide Linked, Sound;
    PutKeeps(s, id, t);
    OnlyTaskSettles(s.tasks, WithTask(s, id, t).tasks, id);
  }

  lemma LandingRests(s: Desk, t: Task, to: Status)
    requires to != FixSubmitted
    ensures !Transient(Landing(s, t, to))
  {
  }

  /** A button that makes one transition. */
  lemma TransitionSettles(s: Desk, id: nat, to: Status)
    requires Inv(s) && id < |s.tasks| && Sensible(s.tasks[id], to) && to != FixSubmitted
    ensures Keeps(s, Transition(s, id, to))
  {
    hide Linked, Sensible, Transient, Landing, Entries, Transition, TicketsHold;
    TransitionKeeps(s, id, to);
    LandingRests(s, s.tasks[id], to);
    NotCompleted(s.tasks[id], to);
    OnlyTaskSettles(s.tasks, Transition(s, id, to).tasks, id);
  }

  /** A button that first writes fields of the task. */
  lemma WriteAndMove(s: Desk, id: nat, t: Task, to: Status)
    requires Inv(s) && id < |s.tasks|
    requires Sound(t) && SameLinks(s.tasks[id], t) && t.status == s.tasks[id].status
    requires Sensible(t, to) && to != FixSubmitted
    ensures Keeps(s, Transition(WithTask(s, id, t), id, to))
  {
    hide Linked, Sensible, Transition;
    assert !Transient(s.tasks[id].status);
    PutSettles(s, id, t);
    TransitionSettles(WithTask(s, id, t), id, to);
    KeepsTrans(s, WithTask(s, id, t), Transition(WithTask(s, id, t), id, to));
  }

  lemma TaskAt(s: Desk, id: nat)
    requires Inv(s) && id < |s.tasks|
    ensures Sound(s.tasks[id]) && !Transient(s.tasks[id].status)
  {
  }

  lemma AppendSettles(s: Desk, t: Task)
    requires Inv(s) && Sound(t) && !Transient(t.status) && t.ticket.None? && (t.kind == Dev ==> t.release.None?)
    ensures Keeps(s, s.(tasks := s.tasks + [t]))
  {
    hide Linked, Sound;
    NewRowKeeps(s, t);
  }

  lemma CreateKeeps(s: Desk, a: TaskAction)
    requires Inv(s) && a.CreateTask?
    ensures Keeps(s, Create(s, a))
  {
    hide Inv, Keeps;
    var t := NewDevTask(a.project, if a.draft then Draft else Assigned, a.assignee, a.reviewer, None, a.clientVisible, []);
    AppendSettles(s, if a.category == "Development" then t else t.(kind := Mgmt, category := a.category));
  }

  lemma AssignKeeps(s: Desk, id: nat, to: string, reviewer: Option<string>)
    requires Inv(s) && TaskOffered(s, AssignTask(id, to, reviewer))
    ensures Keeps(s, Assign(s, id, to, reviewer))
  {
    hide Inv, Keeps;
    TaskAt(s, id);
    var t := s.tasks[id];
    var status := if t.status == Draft then Assigned else t.status;
    PutSettles(s, id, t.(assignedTo := Some(to), reviewer := reviewer, status := status));
  }

  lemma BlockKeeps(s: Desk, id: nat, who: string)
    requires Inv(s) && TaskOffered(s, Block(id, who))
    ensures Keeps(s, BlockTask(s, id, who))
  {
    hide Inv, Keeps, Transition;
    TaskAt(s, id);
    var t := s.tasks[id].(prev := Some(s.tasks[id].status));
    WriteAndMove(s, id, t, Blocked);
    var blocked := Transition(WithTask(s, id, t), id, Blocked);
    var follow := MgmtTask("Management", Some(who), t.project, Some(id));
    assert Inv(blocked) by { KeepsInv(s, blocked); }
    AppendSettles(blocked, follow);
    KeepsTrans(s, blocked, blocked.(tasks := blocked.tasks + [follow]));
  }

  lemma KeepsInv(s: Desk, after: Desk)
    requires Keeps(s, after)
    ensures Inv(after) && |s.tasks| <= |after.tasks|
  {
  }

  lemma FixKeeps(s: Desk, id: nat)
    requires Inv(s) && TaskOffered(s, SubmitFix(id))
    ensures Keeps(s, Fix(s, id))
  {
    hide Linked, Transition, QaStands, Traced;
    TaskAt(s, id);
    TransitionKeeps(s, id, FixSubmitted);
    var fixed := Transition(s, id, FixSubmitted);
    TaskIsSound(fixed, id);
    TransitionKeeps(fixed, id, TestingStaging);
    var after := Transition(fixed, id, TestingStaging);
    OnlyTaskTrans(s.tasks, fixed.tasks, after.tasks, id);
    OnlyTaskSettles(s.tasks, after.tasks, id);
  }

  lemma OnlyTaskTrans(a: seq<Task>, b: seq<Task>, c: seq<Task>, id: nat)
    requires OnlyTask(a, b, id) && OnlyTask(b, c, id)
    ensures OnlyTask(a, c, id)
  {
    forall j | |a| <= j < |c| ensures c[j].kind == Mgmt && c[j].status == Assigned {
      assert j < |b| ==> c[j] == b[j];
    }
    forall j | 0 <= j < |a| && j != id ensures c[j] == a[j] {
      assert c[j] == b[j];
    }
  }

  /** The review task found is a management task: completing it directly breaks nothing. */
  lemma FinishKeeps(s: Desk, found: Option<nat>)
    requires Inv(s)
    requires found.Some? ==> found.value < |s.tasks| && s.tasks[found.value].category != "Development"
    ensures Keeps(s, Finish(s, found))
  {
    hide Linked;
    if found.Some? {
      TaskAt(s, found.value);
      PutSettles(s, found.value, s.tasks[found.value].(status := Completed));
    }
  }

  lemma TracedIgnores(t: Task, u: Task)
    requires t.status == u.status && t.history == u.history
    ensures Traced(t) ==> Traced(u)
  {
  }

  lemma ApproveKeeps(s: Desk, id: nat)
    requires Inv(s) && TaskOffered(s, ApproveReview(id))
    ensures Keeps(s, Approve(s, id))
  {
    hide Inv, Keeps, Transition, ChecksOk, QaStands, Traced, ReviewTask;
    TaskAt(s, id);
    var t := s.tasks[id].(pr := Some(PrApproved), reviewApproved := true);
    var s1 := WithTask(s, id, t);
    TracedIgnores(s.tasks[id], t);
    PutSettles(s, id, t);
    KeepsInv(s, s1);
    var found := ReviewTask(s1.tasks, id);
    FinishKeeps(s1, found);
    var s2 := Finish(s1, found);
    KeepsTrans(s, s1, s2);
    KeepsInv(s, s2);
    assert found != Some(id);
    assert s2.tasks[id] == t;
    ApproveMoves(s, s2, id);
  }

  /** The second half of approving: to testing if the checks allow, at once or after the late checks pass. */
  lemma ApproveMoves(s: Desk, s2: Desk, id: nat)
    requires Keeps(s, s2) && id < |s2.tasks|
    requires s2.tasks[id].kind == Dev && s2.tasks[id].status == CodeReview && s2.tasks[id].pr.Some?
    ensures Keeps(s, Transition(s2, id, ReadyForQa))
    ensures forall checks ::
      var s3 := WithTask(s2, id, s2.tasks[id].(checks := checks));
      Keeps(s, s3) && Keeps(s, Transition(s3, id, ReadyForQa))
  {
    hide Inv, Keeps, Transition, QaStands, Traced;
    KeepsInv(s, s2);
    TaskAt(s2, id);
    TransitionSettles(s2, id, ReadyForQa);
    KeepsTrans(s, s2, Transition(s2, id, ReadyForQa));
    forall checks
      ensures var s3 := WithTask(s2, id, s2.tasks[id].(checks := checks));
        Keeps(s, s3) && Keeps(s, Transition(s3, id, ReadyForQa))
    {
      var u := s2.tasks[id].(checks := checks);
      TracedIgnores(s2.tasks[id], u);
      PutSettles(s2, id, u);
      KeepsTrans(s, s2, WithTask(s2, id, u));
      WriteAndMove(s2, id, u, ReadyForQa);
      KeepsTrans(s, s2, Transition(WithTask(s2, id, u), id, ReadyForQa));
    }
  }

  lemma OverrideKeeps(s: Desk, id: nat)
    requires Inv(s) && TaskOffered(s, OverrideChecks(id))
    ensures Keeps(s, Override(s, id))
  {
    hide Inv, Keeps, Transition, ChecksOk, QaStands, Traced;
    TaskAt(s, id);
    var t := s.tasks[id].(overridden := true);
    TracedIgnores(s.tasks[id], t);
    PutSettles(s, id, t);
    WriteAndMove(s, id, t, ReadyForQa);
  }

  /** Buttons that only move the task. */
  lemma MovingStepKeeps(s: Desk, a: TaskAction)
    requires Inv(s) && TaskOffered(s, a)
    requires a.Start? || a.Unblock? || a.MgmtComplete? || a.SendForTesting?
    ensures Keeps(s, ApplyTask(s, a))
  {
    hide Inv, Keeps, Transition, QaStands, Connected;
    TaskAt(s, a.id);
    match a
    case Start(id) => TransitionSettles(s, id, InProgress);
    case Unblock(id) => TransitionSettles(s, id, s.tasks[id].prev.value);
    case MgmtComplete(id) => TransitionSettles(s, id, Completed);
    case SendForTesting(id) => TransitionSettles(s, id, TestingStaging);
  }

  /** Buttons that write a field and move the task. */
  lemma WritingStepKeeps(s: Desk, a: TaskAction)
    requires Inv(s) && TaskOffered(s, a)
    requires a.DevComplete? || a.RequestReview? || a.RequestChanges?
    ensures Keeps(s, ApplyTask(s, a))
  {
    hide Inv, Keeps, Transition, QaStands, Traced;
    TaskAt(s, a.id);
    var t := s.tasks[a.id];
    match a
    case DevComplete(id, clientVisible) =>
      TracedIgnores(t, t.(clientVisible := clientVisible));
      WriteAndMove(s, id, t.(clientVisible := clientVisible), DevCompleted);
    case RequestReview(id, reviewer) =>
      TracedIgnores(t, t.(reviewer := reviewer));
      WriteAndMove(s, id, t.(reviewer := reviewer), CodeReview);
    case RequestChanges(id) =>
      TracedIgnores(t, t.(pr := Some(ChangesRequested)));
      WriteAndMove(s, id, t.(pr := Some(ChangesRequested)), ReturnedToDev);
  }

  /** Main: every button on a task. */
  lemma TaskStepKeeps(s: Desk, a: TaskAction)
    requires Inv(s) && TaskOffered(s, a)
    ensures Keeps(s, ApplyTask(s, a))
  {
    match a
    case CreateTask(_, _, _, _, _, _) => CreateKeeps(s, a);
    case AssignTask(id, to, reviewer) => AssignKeeps(s, id, to, reviewer);
    case Block(id, who) => BlockKeeps(s, id, who);
    case ApproveReview(id) => ApproveKeeps(s, id);
    case OverrideChecks(id) => OverrideKeeps(s, id);
    case SubmitFix(id) => FixKeeps(s, id);
    case DevComplete(_, _) => WritingStepKeeps(s, a);
    case RequestReview(_, _) => WritingStepKeeps(s, a);
    case RequestChanges(_) => WritingStepKeeps(s, a);
    case _ => MovingStepKeeps(s, a);
  }

  // ----- loops over linked tasks -----

  /** Every sound task in one of the statuses may make the move. */
  ghost predicate MayMove(when: set<Status>, to: Status) {
    forall t: Task :: Sound(t) && t.status in when ==> Sensible(t, to)
  }

  lemma {:induction false} EachKeeps(s: Desk, ids: seq<nat>, when: set<Status>, to: Status)
    requires Inv(s) && MayMove(when, to) && to != FixSubmitted
    ensures Keeps(s, Each(s, ids, when, to))
    decreases |ids|
  {
    hide Linked, AllRest, Transition, Sound, Sensible;
    if ids != [] {
      var id := ids[0];
      var next := if id < |s.tasks| && s.tasks[id].status in when then Transition(s, id, to) else s;
      if id < |s.tasks| && s.tasks[id].status in when {
        TaskAt(s, id);
        TransitionSettles(s, id, to);
      }
      EachKeeps(next, ids[1..], when, to);
      KeepsTrans(s, next, Each(next, ids[1..], when, to));
    }
  }

  lemma LiveMayMove()
    ensures MayMove({LiveVerification}, Completed)
    ensures MayMove({LiveVerification}, LiveFailed)
    ensures MayMove({ReadyToPublish}, PublishedLive)
  {
    hide QaStands, Traced;
  }

  lemma UatMayMove()
    ensures MayMove({ClientUat}, ReadyToPublish)
    ensures MayMove({ClientUat, ReadyToPublish, QaPassed}, ReturnedToDev)
  {
    hide QaStands, Traced;
  }

  // ----- tickets -----

  lemma TicketSettles(s: Desk, ti: nat, status: TicketStatus)
    requires Inv(s) && ti < |s.tickets|
    requires status in {Resolved, Closed} ==> AllCompleted(s, s.tickets[ti].tasks)
    ensures Safe(s, WithTicket(s, ti, status))
    ensures !(s.tickets[ti].status in {Resolved, Closed}) ==> Keeps(s, WithTicket(s, ti, status))
  {
    hide Linked, AllRest;
    TicketKeeps(s, ti, status);
  }

  lemma RaiseKeeps(s: Desk, project: string, routed: TicketStatus)
    requires Inv(s) && routed in {NewTicket, AutoAssigned, Escalated}
    ensures Keeps(s, s.(tickets := s.tickets + [Ticket(project, routed, [])]))
  {
    hide TasksSound, ReleasesAgree, ReleasesSound, UatsAgree, LiveChecksAgree, AllRest;
    var after := s.tickets + [Ticket(project, routed, [])];
    assert forall i :: 0 <= i < |s.tickets| ==> after[i] == s.tickets[i];
  }

  /** A development task created from a ticket, listed by it. */
  lemma LinkedRow(tasks: seq<Task>, t: Task, tickets: seq<Ticket>, ti: nat, ticket: Ticket)
    requires TicketsAgree(tasks, tickets) && TicketsDone(tasks, tickets) && ti < |tickets|
    requires t.ticket == Some(ti)
    requires ticket.tasks == tickets[ti].tasks + [|tasks|] && ticket.status == TicketInProgress
    ensures TicketsAgree(tasks + [t], tickets[ti := ticket]) && TicketsDone(tasks + [t], tickets[ti := ticket])
  {
    var rows, after := tasks + [t], tickets[ti := ticket];
    assert forall j :: 0 <= j < |tasks| ==> rows[j] == tasks[j];
    forall i, j: nat | 0 <= i < |after| && j in after[i].tasks ensures j < |rows| && rows[j].ticket == Some(i) {
      if i != ti || j != |tasks| {
        assert j in tickets[i].tasks;
      }
    }
    forall j | 0 <= j < |rows| && rows[j].ticket.Some?
      ensures rows[j].ticket.value < |after| && j in after[rows[j].ticket.value].tasks
    {
      if j == |tasks| {
        assert ticket.tasks[|ticket.tasks| - 1] == j;
      } else {
        assert j in tickets[rows[j].ticket.value].tasks;
      }
    }
    forall i, j: nat | 0 <= i < |after| && after[i].status in {Resolved, Closed} && j in after[i].tasks
      ensures j < |rows| && rows[j].status == Completed
    {
      assert j in tickets[i].tasks;
    }
  }

  lemma AddLinkedKeeps(s: Desk, ti: nat, t: Task)
    requires Inv(s) && ti < |s.tickets| && !(s.tickets[ti].status in {Resolved, Closed})
    requires t.kind == Dev && Sound(t) && !Transient(t.status) && t.ticket == Some(ti) && t.release.None?
    ensures Keeps(s, AddLinked(s, ti, t))
  {
    hide TicketsAgree, TicketsDone, ReleasesSound, UatsAgree, LiveChecksAgree, Sound, NoDuplicates;
    LinkedRow(s.tasks, t, s.tickets, ti, AddLinked(s, ti, t).tickets[ti]);
    ReleasesIgnore(s.tasks, t, s.releases);
  }

  lemma ReleasesIgnore(tasks: seq<Task>, t: Task, releases: seq<Release>)
    requires ReleasesAgree(tasks, releases) && t.release.None?
    ensures ReleasesAgree(tasks + [t], releases)
  {
    hide NoDuplicates;
    var after := tasks + [t];
    assert forall j :: 0 <= j < |tasks| ==> after[j] == tasks[j];
    forall r, j: nat | 0 <= r < |releases| && j in releases[r].tasks
      ensures j < |after| && after[j].kind == Dev && after[j].release == Some(r)
    {
      assert tasks[j].kind == Dev && tasks[j].release == Some(r);
    }
    forall j | 0 <= j < |after| && after[j].kind == Dev && after[j].release.Some?
      ensures after[j].release.value < |releases| && j in releases[after[j].release.value].tasks
    {
      assert j < |tasks| && after[j] == tasks[j];
    }
  }

  lemma ConvertKeeps(s: Desk, a: TicketAction)
    requires Inv(s) && a.Convert? && TicketOffered(s, a)
    ensures Keeps(s, ConvertTicket(s, a))
  {
    hide Inv, Steady;
    var t := NewDevTask(a.project, Assigned, a.assignee, ProjectOf(s, a.project).reviewer, Some(a.ti), a.clientVisible, []);
    var s1 := if a.first then AddLinked(s, a.ti, t) else s;
    var s2 := if a.second then AddLinked(s1, a.ti, t) else s1;
    SteadyItself(s.tasks);
    if a.first {
      AddLinkedKeeps(s, a.ti, t);
    }
    if a.second {
      AddLinkedKeeps(s1, a.ti, t);
      KeepsTrans(s, s1, s2);
    }
    TicketSettles(s2, a.ti, TicketInProgress);
    KeepsTrans(s, s2, ConvertTicket(s, a));
  }

  lemma SteadyItself(tasks: seq<Task>)
    ensures Steady(tasks, tasks)
  {
  }

  /** A resolved ticket's tasks are all completed. */
  lemma ResolvedIsCompleted(s: Desk, ti: nat)
    requires Inv(s) && ti < |s.tickets| && s.tickets[ti].status in {Resolved, Closed}
    ensures AllCompleted(s, s.tickets[ti].tasks)
  {
    var ids := s.tickets[ti].tasks;
    forall k | 0 <= k < |ids| ensures ids[k] < |s.tasks| && s.tasks[ids[k]].status == Completed {
      assert ids[k] in s.tickets[ti].tasks;
    }
  }

  /** Main: every button on a ticket. */
  lemma TicketStepKeeps(s: Desk, a: TicketAction)
    requires Inv(s) && TicketOffered(s, a)
    ensures Safe(s, ApplyTicket(s, a))
    ensures !a.Close? && !a.Reopen? ==> Keeps(s, ApplyTicket(s, a))
  {
    hide Inv, Safe, TicketsHold, AllCompleted;
    match a
    case RaiseTicket(project, routed) => RaiseKeeps(s, project, routed);
    case MoveTicket(ti, status) => TicketSettles(s, ti, status);
    case Convert(_, _, _, _, _, _) => ConvertKeeps(s, a);
    case StartWork(ti, me, clientVisible) => StartWorkKeeps(s, ti, me, clientVisible);
    case Resolve(ti) => TicketSettles(s, ti, Resolved);
    case Close(ti) => ResolvedIsCompleted(s, ti); TicketSettles(s, ti, Closed);
    case Reopen(ti) => TicketSettles(s, ti, Reopened);
  }

  lemma StartWorkKeeps(s: Desk, ti: nat, me: string, clientVisible: bool)
    requires Inv(s) && TicketOffered(s, StartWork(ti, me, clientVisible))
    ensures Keeps(s, ApplyTicket(s, StartWork(ti, me, clientVisible)))
  {
    hide Inv, Keeps;
    var project := s.tickets[ti].project;
    var reviewer := ProjectOf(s, project).reviewer;
    AddLinkedKeeps(s, ti, NewDevTask(
      project, InProgress, Some(me), reviewer, Some(ti), clientVisible, [Entry(Assigned, InProgress)]));
  }
}
