/** What single buttons mean for the person who presses them. */
module WorkflowButtons {
  import opened Workflow
  import opened WorkflowInvariant
  import opened WorkflowSteps

  /** An entry that voids a QA pass leaves none standing. */
  lemma Voids(history: seq<Entry>, e: Entry)
    requires VoidsQa(e.to)
    ensures !QaStands(history + [e])
  {
    var h := history + [e];
    assert h[|h| - 1] == e;
  }

  /** Writing a task and moving it: one entry, no other task touched. */
  lemma Lands(s: Desk, id: nat, t: Task, to: Status)
    requires Inv(s) && id < |s.tasks| && Sound(t) && SameLinks(s.tasks[id], t) && t.status == s.tasks[id].status
    requires Sensible(t, to) && !Transient(to)
    ensures var after := Transition(WithTask(s, id, t), id, to);
      && OnlyTask(s.tasks, after.tasks, id)
      && after.tasks[id].status == to
      && after.tasks[id].history == t.history + [Entry(t.status, to)]
  {
    hide Sound, Sensible, Transition, AllRest;
    NotCompleted(t, to);
    PutKeeps(s, id, t);
    TransitionKeeps(WithTask(s, id, t), id, to);
  }

  lemma LandsAsIs(s: Desk, id: nat, to: Status)
    requires Inv(s) && id < |s.tasks| && Sensible(s.tasks[id], to) && !Transient(to)
    ensures var after := Transition(s, id, to);
      && OnlyTask(s.tasks, after.tasks, id)
      && after.tasks[id].status == to
      && after.tasks[id].history == s.tasks[id].history + [Entry(s.tasks[id].status, to)]
  {
    hide Sound, Sensible, Transition, AllRest;
    TransitionKeeps(s, id, to);
  }

  /** Starting a task, for the first time or again, voids every earlier QA pass. */
  lemma StartVoids(s: Desk, id: nat)
    requires Inv(s) && TaskOffered(s, Start(id))
    ensures var t := ApplyTask(s, Start(id)).tasks[id]; t.status == InProgress && !QaStands(t.history)
  {
    TaskAt(s, id);
    LandsAsIs(s, id, InProgress);
    Voids(s.tasks[id].history, Entry(s.tasks[id].status, InProgress));
  }

  /** Sending changes back voids every earlier QA pass. */
  lemma ChangesVoid(s: Desk, id: nat)
    requires Inv(s) && TaskOffered(s, RequestChanges(id))
    ensures var t := ApplyTask(s, RequestChanges(id)).tasks[id]; t.status == ReturnedToDev && !QaStands(t.history)
  {
    hide Traced, QaStands, Transition;
    TaskAt(s, id);
    var t := s.tasks[id].(pr := Some(ChangesRequested));
    TracedIgnores(s.tasks[id], t);
    Lands(s, id, t, ReturnedToDev);
    Voids(t.history, Entry(CodeReview, ReturnedToDev));
  }

  /** A block remembers where the task was, and neither grants nor voids a QA pass. */
  lemma BlockRemembers(s: Desk, id: nat, who: string)
    requires Inv(s) && TaskOffered(s, Block(id, who))
    ensures var after := ApplyTask(s, Block(id, who));
      && id < |after.tasks| && after.tasks[id].status == Blocked
      && Effective(after.tasks[id]) == s.tasks[id].status && after.tasks[id].prev == Some(s.tasks[id].status)
      && after.tasks[id].history == s.tasks[id].history + [Entry(s.tasks[id].status, Blocked)]
      && OnlyTask(s.tasks, after.tasks, id) && TaskOffered(after, Unblock(id))
      && |after.tasks| == |s.tasks| + 1
      && var follow := after.tasks[|s.tasks|];
         && follow.kind == Mgmt && follow.category == "Management" && follow.assignedTo == Some(who)
         && follow.linked == Some(id) && follow.project == s.tasks[id].project
  {
    hide Traced, QaStands, Transition;
    TaskAt(s, id);
    var t := s.tasks[id].(prev := Some(s.tasks[id].status));
    TracedIgnores(s.tasks[id], t);
    Lands(s, id, t, Blocked);
    BlockedKeepsPrev(WithTask(s, id, t), id);
  }

  lemma BlockedKeepsPrev(s: Desk, id: nat)
    requires id < |s.tasks|
    ensures Transition(s, id, Blocked).tasks[id].prev == s.tasks[id].prev
    ensures |Transition(s, id, Blocked).tasks| == |s.tasks|
  {
  }

  /** Unblocking re-enters exactly the remembered status, with a standing QA pass wherever one is needed. */
  lemma UnblockReturns(s: Desk, id: nat)
    requires Inv(s) && TaskOffered(s, Unblock(id))
    ensures var after := ApplyTask(s, Unblock(id));
      && id < |after.tasks| && after.tasks[id].status == Effective(s.tasks[id])
      && after.tasks[id].history == s.tasks[id].history + [Entry(Blocked, Effective(s.tasks[id]))]
      && OnlyTask(s.tasks, after.tasks, id)
    ensures NeedsQa(Effective(s.tasks[id])) ==> QaStands(s.tasks[id].history)
  {
    hide Traced, QaStands, Transition;
    TaskAt(s, id);
    LandsAsIs(s, id, s.tasks[id].prev.value);
  }

  lemma TwoEntries(h: seq<Entry>, st: Status)
    ensures h + [Entry(st, Blocked)] + [Entry(Blocked, st)] == h + [Entry(st, Blocked), Entry(Blocked, st)]
  {
  }

  /** The task is back where it was, two history entries later, and every other old task is untouched. */
  predicate BackAgain(s: Desk, after: Desk, id: nat)
    requires id < |s.tasks|
  {
    var st := s.tasks[id].status;
    && |s.tasks| <= |after.tasks|
    && after.tasks[id].status == st
    && after.tasks[id].history == s.tasks[id].history + [Entry(st, Blocked), Entry(Blocked, st)]
    && forall j :: 0 <= j < |s.tasks| && j != id ==> after.tasks[j] == s.tasks[j]
  }

  /** Main: blocking and unblocking is a round trip. */
  lemma BlockRoundTrip(s: Desk, id: nat, who: string)
    requires Inv(s) && TaskOffered(s, Block(id, who))
    ensures var blocked := ApplyTask(s, Block(id, who));
      TaskOffered(blocked, Unblock(id)) && BackAgain(s, ApplyTask(blocked, Unblock(id)), id)
  {
    var blocked := ApplyTask(s, Block(id, who));
    BlockRemembers(s, id, who);
    TaskStepKeeps(s, Block(id, who));
    KeepsInv(s, blocked);
    hide Inv, Keeps, ApplyTask, NeedsQa, QaStands, TaskOffered, Effective;
    UnblockReturns(blocked, id);
    TwoEntries(s.tasks[id].history, s.tasks[id].status);
  }

  /** Development is never completed by hand: its button leads to a review, only a management task's to completion; and
      no ticket moves. */
  lemma CompleteByHand(s: Desk, id: nat, clientVisible: bool)
    requires Inv(s) && (TaskOffered(s, DevComplete(id, clientVisible)) || TaskOffered(s, MgmtComplete(id)))
    ensures var after := ApplyTask(s, if s.tasks[id].kind == Mgmt then MgmtComplete(id) else DevComplete(id, clientVisible));
      && id < |after.tasks| && OnlyTask(s.tasks, after.tasks, id) && after.tickets == s.tickets
      && after.tasks[id].status == (if s.tasks[id].kind == Mgmt then Completed else DevCompleted)
      && (s.tasks[id].kind == Dev ==> after.tasks[id].clientVisible == clientVisible)
  {
    hide Traced, QaStands, Transition;
    TaskAt(s, id);
    if s.tasks[id].kind == Mgmt {
      LandsAsIs(s, id, Completed);
      NoTicketNoChange(s, id, Completed);
    } else {
      var t := s.tasks[id].(clientVisible := clientVisible);
      TracedIgnores(s.tasks[id], t);
      Lands(s, id, t, DevCompleted);
      NoTicketNoChange(WithTask(s, id, t), id, DevCompleted);
      VisibilityStays(WithTask(s, id, t), id);
    }
  }

  lemma VisibilityStays(s: Desk, id: nat)
    requires id < |s.tasks|
    ensures Transition(s, id, DevCompleted).tasks[id].clientVisible == s.tasks[id].clientVisible
  {
  }

  lemma NoTicketNoChange(s: Desk, id: nat, to: Status)
    requires id < |s.tasks| && (to == DevCompleted || (to == Completed && s.tasks[id].ticket.None?))
    ensures Transition(s, id, to).tickets == s.tickets
  {
  }

  lemma ReviewAppends(s: Desk, id: nat)
    requires id < |s.tasks|
    ensures Transition(s, id, CodeReview).tasks ==
      s.tasks[id := Moved(s.tasks[id], CodeReview)] +
        [MgmtTask("Review", s.tasks[id].reviewer, s.tasks[id].project, Some(id))]
  {
  }

  lemma NewestReview(tasks: seq<Task>, id: nat, t: Task)
    requires t.linked == Some(id) && t.category == "Review" && t.status != Completed
    ensures ReviewTask(tasks + [t], id) == Some(|tasks|)
  {
    assert (tasks + [t])[|tasks|] == t;
  }

  /** The pull request is open and its review task, the newest row, is the one that approving finds. */
  predicate InReview(s: Desk, id: nat, reviewer: Option<string>) {
    && DevIn(s, id, CodeReview) && s.tasks[id].pr.Some? && s.tasks[id].reviewer == reviewer
    && |s.tasks| > 0 && s.tasks[|s.tasks| - 1].assignedTo == reviewer
    && ReviewTask(s.tasks, id) == Some(|s.tasks| - 1)
  }

  lemma MovedReviewer(t: Task, to: Status)
    ensures Moved(t, to).reviewer == t.reviewer
  {
  }

  lemma ReviewOpens(s: Desk, id: nat)
    requires id < |s.tasks| && s.tasks[id].kind == Dev
    ensures InReview(Transition(s, id, CodeReview), id, s.tasks[id].reviewer)
  {
    hide Transition, ReviewTask, Moved;
    ReviewAppends(s, id);
    MovedLinks(s.tasks[id], CodeReview);
    var t := MgmtTask("Review", s.tasks[id].reviewer, s.tasks[id].project, Some(id));
    MovedReviewer(s.tasks[id], CodeReview);
    NewestReview(s.tasks[id := Moved(s.tasks[id], CodeReview)], id, t);
  }

  /** Opening a pull request gives the reviewer the very task that approving will finish. */
  lemma ReviewTaskIsFound(s: Desk, id: nat, reviewer: Option<string>)
    requires TaskOffered(s, RequestReview(id, reviewer))
    ensures InReview(ApplyTask(s, RequestReview(id, reviewer)), id, reviewer)
  {
    hide Transition, InReview;
    ReviewOpens(WithTask(s, id, s.tasks[id].(reviewer := reviewer)), id);
  }

  /** After an override the checks count as passed, and the task moves exactly when its review was approved before. */
  lemma OverrideMoves(s: Desk, id: nat)
    requires Inv(s) && TaskOffered(s, OverrideChecks(id))
    ensures var after := ApplyTask(s, OverrideChecks(id));
      && id < |after.tasks| && ChecksOk(after, after.tasks[id])
      && (after.tasks[id].status == ReadyForQa <==> s.tasks[id].reviewApproved || s.tasks[id].pr == Some(PrApproved))
      && (after.tasks[id].status != ReadyForQa ==> after.tasks[id].status == CodeReview)
  {
    hide Inv;
    var w := WithTask(s, id, s.tasks[id].(overridden := true));
    ReadyLands(w, id);
    hide Transition;
  }

  lemma ReadyLands(s: Desk, id: nat)
    requires id < |s.tasks|
    ensures var after := Transition(s, id, ReadyForQa);
      id < |after.tasks| && after.tasks[id].status == ReadyForQa && after.tasks[id].overridden == s.tasks[id].overridden
  {
  }

  /** A task sent for testing, or for a retest, has no standing pass and an open assignment that offers a result. */
  predicate UnderTest(s: Desk, id: nat) {
    && id < |s.tasks| && s.tasks[id].status == TestingStaging && !QaStands(s.tasks[id].history)
    && |s.qas| > 0 && s.qas[|s.qas| - 1].task == id && StagingTestOffered(s, |s.qas| - 1)
  }

  lemma TestingOpens(s: Desk, id: nat)
    requires id < |s.tasks|
    ensures var kind := if s.tasks[id].status in {FixSubmitted, ReturnedToDev} then Retest else FirstTest;
      Transition(s, id, TestingStaging).qas == s.qas + [Qa(id, None, kind, QaPending)]
  {
    hide Moved, JoinUat, AllCompleted;
  }

  lemma SendingOpensTest(s: Desk, id: nat)
    requires Inv(s) && TaskOffered(s, SendForTesting(id))
    ensures UnderTest(ApplyTask(s, SendForTesting(id)), id)
  {
    hide Traced, Transition;
    TaskAt(s, id);
    LandsAsIs(s, id, TestingStaging);
    TestingOpens(s, id);
    Voids(s.tasks[id].history, Entry(ReadyForQa, TestingStaging));
  }

  /** The two entries of a fix. */
  lemma FixLands(s: Desk, id: nat)
    requires Inv(s) && TaskOffered(s, SubmitFix(id))
    ensures var fixed := Transition(s, id, FixSubmitted);
      && id < |fixed.tasks| && fixed.tasks[id].status == FixSubmitted
      && var after := Transition(fixed, id, TestingStaging);
         && id < |after.tasks| && after.tasks[id].status == TestingStaging
         && after.tasks[id].history ==
              s.tasks[id].history + [Entry(s.tasks[id].status, FixSubmitted)] + [Entry(FixSubmitted, TestingStaging)]
  {
    hide Linked, Traced, QaStands, Transition;
    TaskAt(s, id);
    TransitionKeeps(s, id, FixSubmitted);
    var fixed := Transition(s, id, FixSubmitted);
    TaskIsSound(fixed, id);
    TransitionKeeps(fixed, id, TestingStaging);
  }

  /** Submitting a fix always leads to a retest: two entries, nothing left in the transient status. */
  lemma FixOpensRetest(s: Desk, id: nat)
    requires Inv(s) && TaskOffered(s, SubmitFix(id))
    ensures var after := ApplyTask(s, SubmitFix(id));
      && UnderTest(after, id) && after.qas[|after.qas| - 1].kind == Retest
      && after.tasks[id].history ==
           s.tasks[id].history + [Entry(s.tasks[id].status, FixSubmitted), Entry(FixSubmitted, TestingStaging)]
  {
    hide Inv, QaStands, Transition;
    FixLands(s, id);
    var h, e1, e2 := s.tasks[id].history, Entry(s.tasks[id].status, FixSubmitted), Entry(FixSubmitted, TestingStaging);
    assert h + [e1] + [e2] == h + [e1, e2];
    Voids(h + [e1], e2);
    TestingOpens(Transition(s, id, FixSubmitted), id);
  }

  /** How many tasks a conversion makes. */
  function Made(a: TicketAction): nat
    requires a.Convert?
  {
    (if a.first then 1 else 0) + (if a.second then 1 else 0)
  }

  function NewIds(from: nat, made: nat): seq<nat> {
    seq(made, i requires 0 <= i => from + i)
  }

  /** A development task of the ticket as support creates it: in this project, with its reviewer, for this person. */
  predicate IsTaskOf(s: Desk, t: Task, ti: nat, project: string, assignee: Option<string>, clientVisible: bool) {
    && t.kind == Dev && t.category == "Development" && t.ticket == Some(ti) && t.project == project
    && t.assignedTo == assignee && t.clientVisible == clientVisible && t.release.None?
    && t.reviewer == if project in s.projects then s.projects[project].reviewer else None
  }

  lemma ConvertedRows(s: Desk, a: TicketAction)
    requires a.Convert? && TicketOffered(s, a)
    ensures var after := ConvertTicket(s, a);
      && |after.tasks| == |s.tasks| + Made(a) && after.tasks[..|s.tasks|] == s.tasks
      && (forall j :: |s.tasks| <= j < |after.tasks| ==>
            after.tasks[j].status == Assigned && IsTaskOf(s, after.tasks[j], a.ti, a.project, a.assignee, a.clientVisible))
      && a.ti < |after.tickets| && after.tickets[a.ti].status == TicketInProgress
      && after.tickets[a.ti].tasks == s.tickets[a.ti].tasks + NewIds(|s.tasks|, Made(a))
  {
    var after := ConvertTicket(s, a);
    if a.first && a.second {
      assert NewIds(|s.tasks|, 2) == [|s.tasks|] + [|s.tasks| + 1];
    } else if a.first || a.second {
      assert NewIds(|s.tasks|, 1) == [|s.tasks|];
    } else {
      assert NewIds(|s.tasks|, 0) == [];
    }
  }

  /** A converted ticket is in progress and lists its new tasks last; it cannot be resolved before they are done. */
  lemma ConvertedWaits(s: Desk, a: TicketAction)
    requires a.Convert? && TicketOffered(s, a)
    ensures var after := ApplyTicket(s, a);
      && |after.tasks| == |s.tasks| + Made(a) && after.tasks[..|s.tasks|] == s.tasks
      && (forall j :: |s.tasks| <= j < |after.tasks| ==>
            after.tasks[j].status == Assigned && IsTaskOf(s, after.tasks[j], a.ti, a.project, a.assignee, a.clientVisible))
      && a.ti < |after.tickets| && after.tickets[a.ti].status == TicketInProgress
      && after.tickets[a.ti].tasks == s.tickets[a.ti].tasks + NewIds(|s.tasks|, Made(a))
      && (Made(a) > 0 ==> !TicketOffered(after, Resolve(a.ti)))
  {
    ConvertedRows(s, a);
    var after := ConvertTicket(s, a);
    hide ConvertTicket, Made;
    var ids := after.tickets[a.ti].tasks;
    if Made(a) > 0 {
      assert ids[|ids| - 1] == |after.tasks| - 1;
    }
  }

  /** Started work is a running task of the ticket, which cannot be resolved before it is done. */
  lemma StartedWaits(s: Desk, ti: nat, me: string, clientVisible: bool)
    requires Inv(s) && TicketOffered(s, StartWork(ti, me, clientVisible))
    ensures var after := ApplyTicket(s, StartWork(ti, me, clientVisible));
      && |after.tasks| == |s.tasks| + 1 && after.tasks[..|s.tasks|] == s.tasks
      && ti < |after.tickets| && after.tickets[ti].tasks == s.tickets[ti].tasks + [|s.tasks|]
      && TaskOffered(after, DevComplete(|s.tasks|, clientVisible))
      && IsTaskOf(s, after.tasks[|s.tasks|], ti, s.tickets[ti].project, Some(me), clientVisible)
      && after.tickets[ti].status == TicketInProgress
      && !TicketOffered(after, Resolve(ti))
  {
    var after := ApplyTicket(s, StartWork(ti, me, clientVisible));
    var ids := after.tickets[ti].tasks;
    assert ids[|ids| - 1] == |s.tasks| && after.tasks[|s.tasks|].status == InProgress;
  }

  /** A new task is a development task exactly in that category; it is untested, in no ticket and no release. */
  lemma CreatedIsUntested(s: Desk, a: TaskAction)
    requires a.CreateTask? && TaskOffered(s, a)
    ensures var after := ApplyTask(s, a);
      && |after.tasks| == |s.tasks| + 1 && after.tasks[..|s.tasks|] == s.tasks
      && var t := after.tasks[|s.tasks|];
         && (t.kind == Dev <==> a.category == "Development") && t.category == a.category
         && t.status == (if a.draft then Draft else Assigned) && t.project == a.project
         && t.assignedTo == a.assignee && t.reviewer == a.reviewer && t.clientVisible == a.clientVisible
         && !QaStands(t.history) && t.ticket.None? && t.release.None?
  {
  }

  /** An assigned task can be started, whatever it was before; its history is untouched. */
  lemma AssignedCanStart(s: Desk, id: nat, to: string, reviewer: Option<string>)
    requires TaskOffered(s, AssignTask(id, to, reviewer))
    ensures var after := ApplyTask(s, AssignTask(id, to, reviewer));
      && OnlyTask(s.tasks, after.tasks, id)
      && TaskOffered(after, Start(id)) && after.tasks[id].assignedTo == Some(to) && after.tasks[id].reviewer == reviewer
      && after.tasks[id].status == Assigned
      && after.tasks[id].history == s.tasks[id].history
  {
  }

  /** A resolved ticket has only completed tasks and can be closed or reopened; a closed one only reopened; a reopened one
      resolved again. */
  lemma TicketCanGoOn(s: Desk, a: TicketAction)
    requires Inv(s) && TicketOffered(s, a) && (a.Resolve? || a.Close? || a.Reopen?)
    ensures var after := ApplyTicket(s, a);
      && after.tasks == s.tasks && a.ti < |after.tickets|
      && AllCompleted(after, after.tickets[a.ti].tasks)
      && (TicketOffered(after, Close(a.ti)) <==> a.Resolve?)
      && (TicketOffered(after, Reopen(a.ti)) <==> !a.Reopen?)
      && (TicketOffered(after, Resolve(a.ti)) <==> a.Reopen?)
  {
    if !a.Resolve? {
      ResolvedIsCompleted(s, a.ti);
    }
  }
}
