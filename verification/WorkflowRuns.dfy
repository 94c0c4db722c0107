/** The workflow's promises over every run of buttons from the empty desk. */
module WorkflowRuns {
  import opened Workflow
  import opened WorkflowInvariant
  import opened WorkflowSteps
  import opened WorkflowReleases

  // ----- joining a release -----

  lemma {:induction false} ReadyTasksAreReady(tasks: seq<Task>, project: string, n: nat)
    requires n <= |tasks|
    ensures NoDuplicates(ReadyTasks(tasks, project, n))
    ensures forall id :: id in ReadyTasks(tasks, project, n) <==>
      0 <= id < n && tasks[id].project == project && tasks[id].status == ReadyToPublish && tasks[id].release.None?
  {
    if n > 0 {
      ReadyTasksAreReady(tasks, project, n - 1);
    }
  }

  lemma {:induction false} StampedAt(tasks: seq<Task>, ids: seq<nat>, r: nat, j: nat)
    requires j < |tasks| && forall k :: 0 <= k < |ids| ==> ids[k] < |tasks|
    ensures Stamped(tasks, ids, r)[j] == if j in ids then tasks[j].(release := Some(r)) else tasks[j]
    decreases |ids|
  {
    if ids != [] {
      var id := ids[0];
      StampedAt(tasks[id := tasks[id].(release := Some(r))], ids[1..], r, j);
      assert ids == [id] + ids[1..];
    }
  }

  lemma SoundIgnoresRelease(t: Task, release: Option<nat>)
    requires Sound(t)
    ensures Sound(t.(release := release))
  {
    hide QaStands, Traced;
    TracedIgnores(t, t.(release := release));
  }

  /** Development tasks in no release, put into release `r` and nowhere else. */
  predicate Joined(before: seq<Task>, after: seq<Task>, ids: seq<nat>, r: nat) {
    && |after| == |before|
    && (forall id :: id in ids ==> id < |before| && before[id].kind == Dev && before[id].release.None?)
    && forall j {:trigger after[j]} :: 0 <= j < |before| ==>
         after[j] == if j in ids then before[j].(release := Some(r)) else before[j]
  }

  lemma JoinedSound(before: seq<Task>, after: seq<Task>, ids: seq<nat>, r: nat)
    requires Joined(before, after, ids, r) && TasksSound(before) && AllRest(before)
    ensures TasksSound(after) && AllRest(after) && Steady(before, after)
  {
    hide Sound;
    forall j | 0 <= j < |after| ensures Sound(after[j]) {
      SoundIgnoresRelease(before[j], Some(r));
    }
  }

  lemma JoinedTickets(before: seq<Task>, after: seq<Task>, ids: seq<nat>, r: nat, tickets: seq<Ticket>)
    requires Joined(before, after, ids, r) && TicketsAgree(before, tickets) && TicketsDone(before, tickets)
    ensures TicketsAgree(after, tickets) && TicketsDone(after, tickets)
  {
    forall i, j: nat | 0 <= i < |tickets| && j in tickets[i].tasks ensures j < |after| && after[j].ticket == Some(i) {
      assert before[j].ticket == Some(i);
    }
    forall j | 0 <= j < |after| && after[j].ticket.Some?
      ensures after[j].ticket.value < |tickets| && j in tickets[after[j].ticket.value].tasks
    {
      assert before[j].ticket == after[j].ticket;
    }
    forall i, j: nat | 0 <= i < |tickets| && tickets[i].status in {Resolved, Closed} && j in tickets[i].tasks
      ensures j < |after| && after[j].status == Completed
    {
      assert before[j].status == Completed;
    }
  }

  /** The release list gains the joined tasks: as a new release, or at the end of an old one. */
  lemma JoinedReleases(before: seq<Task>, after: seq<Task>, ids: seq<nat>, r: nat, was: seq<Release>, releases: seq<Release>)
    requires Joined(before, after, ids, r) && ReleasesAgree(before, was)
    requires r < |releases| && |was| <= |releases| <= r + 1 + |was|
    requires forall i :: 0 <= i < |releases| && i != r ==> i < |was| && releases[i].tasks == was[i].tasks
    requires NoDuplicates(ids)
    requires releases[r].tasks == (if r < |was| then was[r].tasks else []) + ids
    ensures ReleasesAgree(after, releases)
  {
    var prior := if r < |was| then was[r].tasks else [];
    forall x, y | 0 <= x < y < |releases[r].tasks| ensures releases[r].tasks[x] != releases[r].tasks[y] {
      if y < |prior| {
        assert prior[x] != prior[y];
      } else if x < |prior| {
        assert prior[x] in was[r].tasks && ids[y - |prior|] in ids;
      } else {
        assert ids[x - |prior|] != ids[y - |prior|];
      }
    }
    forall i, j: nat | 0 <= i < |releases| && j in releases[i].tasks
      ensures j < |after| && after[j].kind == Dev && after[j].release == Some(i)
    {
      if i == r && j in ids {
        assert after[j].release == Some(r);
      } else {
        assert j in was[i].tasks;
        assert before[j].release == Some(i);
      }
    }
    forall j | 0 <= j < |after| && after[j].kind == Dev && after[j].release.Some?
      ensures after[j].release.value < |releases| && j in releases[after[j].release.value].tasks
    {
      if j in ids {
        assert j in releases[r].tasks;
      } else {
        assert j in was[before[j].release.value].tasks;
        assert j in releases[before[j].release.value].tasks;
      }
    }
  }

  lemma JoinReleaseKeeps(s: Desk, id: nat, r: nat)
    requires Inv(s) && ReleaseOffered(s, AddToRelease(id, r))
    ensures Keeps(s, JoinRelease(s, id, r))
  {
    var after := JoinRelease(s, id, r);
    var rel := after.releases[r];
    assert Joined(s.tasks, after.tasks, [id], r) by {
      hide Inv;
    }
    JoinedParts(s, after, [id], r);
    JoinedReleases(s.tasks, after.tasks, [id], r, s.releases, after.releases);
    hide TasksSound, TicketsAgree, TicketsDone, ReleasesAgree, UatsAgree, AllRest, Joined;
    RewriteUatsOf(s, r, rel);
  }

  lemma JoinedParts(s: Desk, after: Desk, ids: seq<nat>, r: nat)
    requires Inv(s) && Joined(s.tasks, after.tasks, ids, r) && after.tickets == s.tickets
    ensures TasksSound(after.tasks) && AllRest(after.tasks) && Steady(s.tasks, after.tasks)
    ensures TicketsAgree(after.tasks, after.tickets) && TicketsDone(after.tasks, after.tickets)
  {
    hide Joined, TasksSound, TicketsAgree, TicketsDone, AllRest;
    JoinedSound(s.tasks, after.tasks, ids, r);
    JoinedTickets(s.tasks, after.tasks, ids, r, s.tickets);
  }

  lemma RewriteUatsOf(s: Desk, r: nat, rel: Release)
    requires Inv(s) && r < |s.releases|
    requires rel.uatRequired == s.releases[r].uatRequired && rel.uatStatus == s.releases[r].uatStatus
    requires Waiting(s.releases[r]) ==> Waiting(rel)
    ensures UatsAgree(s.uats, s.releases[r := rel])
  {
    ReleaseAt(s, r);
    RewriteUats(s.uats, s.releases, r, rel);
  }

  lemma NewReleaseRow(s: Desk, rel: Release)
    requires Inv(s) && rel.status == DraftRelease && rel.uatStatus.None?
    ensures ReleasesSound(s.releases + [rel])
    ensures UatsAgree(s.uats, s.releases + [rel]) && LiveChecksAgree(s.qas, s.releases + [rel])
  {
    hide TasksSound, TicketsAgree, TicketsDone, ReleasesAgree, AllRest, HasUat;
    var after := s.releases + [rel];
    assert forall i :: 0 <= i < |s.releases| ==> after[i] == s.releases[i];
  }

  lemma ReadyIsDev(t: Task)
    requires Sound(t) && t.status == ReadyToPublish
    ensures t.kind == Dev
  {
  }

  lemma NewReleaseJoins(s: Desk, ids: seq<nat>, r: nat)
    requires Inv(s)
    requires forall id :: id in ids ==>
      0 <= id < |s.tasks| && s.tasks[id].status == ReadyToPublish && s.tasks[id].release.None?
    ensures Joined(s.tasks, Stamped(s.tasks, ids, r), ids, r)
  {
    hide Sound, Linked, AllRest;
    var after := Stamped(s.tasks, ids, r);
    assert forall k :: 0 <= k < |ids| ==> ids[k] in ids;
    forall j | 0 <= j < |s.tasks| ensures after[j] == if j in ids then s.tasks[j].(release := Some(r)) else s.tasks[j] {
      StampedAt(s.tasks, ids, r, j);
    }
    forall id: nat | id in ids ensures id < |s.tasks| && s.tasks[id].kind == Dev && s.tasks[id].release.None? {
      TaskAt(s, id);
      ReadyIsDev(s.tasks[id]);
    }
  }

  lemma NewReleaseKeeps(s: Desk, project: string, includeReady: bool)
    requires Inv(s)
    ensures Keeps(s, NewRelease(s, project, includeReady))
  {
    hide Joined, TasksSound, TicketsAgree, TicketsDone, ReleasesAgree, ReleasesSound, UatsAgree, LiveChecksAgree, AllRest;
    hide Stamped, ReadyTasks;
    var after := NewRelease(s, project, includeReady);
    var r := |s.releases|;
    var ids := after.releases[r].tasks;
    ReadyTasksAreReady(s.tasks, project, |s.tasks|);
    NewReleaseJoins(s, ids, r);
    JoinedParts(s, after, ids, r);
    JoinedReleases(s.tasks, after.tasks, ids, r, s.releases, after.releases);
    NewReleaseRow(s, after.releases[r]);
  }

  lemma SettingsKeep(s: Desk, projects: map<string, Project>, required: seq<string>)
    requires Inv(s)
    ensures Keeps(s, s.(projects := projects)) && Keeps(s, s.(requiredChecks := required))
  {
    hide TasksSound, TicketsAgree, TicketsDone, ReleasesAgree, ReleasesSound, UatsAgree, LiveChecksAgree, AllRest;
  }

  /** Main: every button on a release. */
  lemma ReleaseStepKeeps(s: Desk, a: ReleaseAction)
    requires Inv(s) && ReleaseOffered(s, a)
    ensures Keeps(s, ApplyRelease(s, a))
  {
    hide Inv, Keeps;
    match a
    case CreateRelease(project, includeReady) => NewReleaseKeeps(s, project, includeReady);
    case AddToRelease(id, r) => JoinReleaseKeeps(s, id, r);
    case RequestApproval(r) => AskApprovalKeeps(s, r);
    case ApproveRelease(r, key, me) => ApproveSlotKeeps(s, r, key, me);
    case Schedule(r) => ScheduleKeeps(s, r);
    case Publish(r) => PublishKeeps(s, r);
    case Rollback(r) => RollBackKeeps(s, r);
    case EditProject(project, settings) => SettingsKeep(s, s.projects[project := settings], s.requiredChecks);
    case EditChecks(required) => SettingsKeep(s, s.projects, required);
  }

  // ----- every run -----

  /** Main: every button keeps the invariant and undoes no completion; every button but closing and reopening leaves
      resolved and closed tickets as they are. */
  lemma StepKeeps(s: Desk, a: Action)
    requires Inv(s) && Offered(s, a)
    ensures Safe(s, Apply(s, a))
    ensures !(a.OnTicket? && (a.ticket.Close? || a.ticket.Reopen?)) ==> Keeps(s, Apply(s, a))
  {
    hide Inv, Safe, TicketsHold;
    match a
    case OnTask(t) => TaskStepKeeps(s, t);
    case OnTest(t) => TestStepKeeps(s, t);
    case OnTicket(t) => TicketStepKeeps(s, t);
    case OnRelease(t) => ReleaseStepKeeps(s, t);
  }

  lemma {:induction false} RunKeeps(s: Desk, actions: seq<Action>, end: Desk)
    requires Inv(s) && Run(s, actions, end)
    ensures Safe(s, end)
    decreases |actions|
  {
    hide Inv;
    if actions == [] {
      SteadyItself(s.tasks);
    } else {
      StepKeeps(s, actions[0]);
      RunKeeps(Apply(s, actions[0]), actions[1..], end);
      SafeTrans(s, Apply(s, actions[0]), end);
    }
  }

  /** Some run of buttons leads from one desk to the other. */
  ghost predicate Leads(s: Desk, end: Desk) {
    exists actions :: Run(s, actions, end)
  }

  /** Reachable from the empty desk. */
  ghost predicate Reachable(s: Desk) {
    Leads(EMPTY, s)
  }

  lemma ReachableInv(s: Desk)
    requires Reachable(s)
    ensures Inv(s)
  {
    var actions :| Run(EMPTY, actions, s);
    RunKeeps(EMPTY, actions, s);
  }

  /** A development task past testing was passed by QA after everything that would void the pass. */
  lemma PublishedWasTested(s: Desk, id: nat)
    requires Reachable(s) && id < |s.tasks| && s.tasks[id].kind == Dev
    requires Effective(s.tasks[id]) in {ClientUat, ReadyToPublish, LiveVerification, Completed}
    ensures var h := s.tasks[id].history;
      exists i :: 0 <= i < |h| && h[i].to == QaPassed && forall j :: i < j < |h| ==> !VoidsQa(h[j].to)
  {
    ReachableInv(s);
    TaskAt(s, id);
  }

  /** A task history is connected, but for rolled back live tasks, and ends at the task's status. */
  lemma HistoryIsTraced(s: Desk, id: nat)
    requires Reachable(s) && id < |s.tasks| && s.tasks[id].kind == Dev
    ensures Traced(s.tasks[id]) && !Transient(s.tasks[id].status)
  {
    ReachableInv(s);
    TaskAt(s, id);
  }

  /** Rolling back keeps a history connected exactly when the task was already waiting for a rollback. */
  lemma RollbackConnectsIffRequired(t: Task)
    requires Sound(t) && t.kind == Dev && !Transient(t.status) && RolledBackTask(t) != t
    ensures var h := RolledBackTask(t).history;
      h[|h| - 1].from == h[|h| - 2].to <==> t.status == RollbackRequired
  {
  }

  /** A resolved or closed ticket has only completed tasks. */
  lemma ResolvedIsDone(s: Desk, ti: nat, id: nat)
    requires Reachable(s) && ti < |s.tickets| && s.tickets[ti].status in {Resolved, Closed}
    requires id < |s.tasks| && s.tasks[id].ticket == Some(ti)
    ensures s.tasks[id].status == Completed
  {
    ReachableInv(s);
    assert id in s.tickets[ti].tasks;
  }

  /** Main: no button but its own Close and Reopen changes a resolved or closed ticket's status; nothing done to a task
      pulls it back. */
  lemma ResolvedIsNotPulledBack(s: Desk, a: Action, ti: nat)
    requires Inv(s) && Offered(s, a) && ti < |s.tickets| && s.tickets[ti].status in {Resolved, Closed}
    requires a != OnTicket(Close(ti)) && a != OnTicket(Reopen(ti))
    ensures ti < |Apply(s, a).tickets| && Apply(s, a).tickets[ti].status == s.tickets[ti].status
  {
    if a.OnTicket? && (a.ticket.Close? || a.ticket.Reopen?) {
      assert a.ticket.ti != ti;
    } else {
      hide Inv, Steady, Offered, Apply;
      StepKeeps(s, a);
    }
  }

  /** Main: over any run in which it is not reopened, a resolved ticket stays resolved or closed, a closed one closed. */
  lemma {:induction false} ResolvedStays(s: Desk, actions: seq<Action>, end: Desk, ti: nat)
    requires Inv(s) && Run(s, actions, end) && ti < |s.tickets| && s.tickets[ti].status in {Resolved, Closed}
    requires OnTicket(Reopen(ti)) !in actions
    ensures ti < |end.tickets| && end.tickets[ti].status in {Resolved, Closed}
    ensures s.tickets[ti].status == Closed ==> end.tickets[ti].status == Closed
    decreases |actions|
  {
    if actions != [] {
      hide Inv;
      var a := actions[0];
      assert a in actions;
      assert forall b :: b in actions[1..] ==> b in actions;
      StepKeeps(s, a);
      if a != OnTicket(Close(ti)) {
        ResolvedIsNotPulledBack(s, a, ti);
      }
      ResolvedStays(Apply(s, a), actions[1..], end, ti);
    }
  }

  /** Completed is final for development tasks, whatever is pressed afterwards. */
  lemma CompletedIsFinal(s: Desk, end: Desk, id: nat)
    requires Reachable(s) && Leads(s, end)
    requires id < |s.tasks| && s.tasks[id].kind == Dev && s.tasks[id].status == Completed
    ensures id < |end.tasks| && end.tasks[id].status == Completed
  {
    hide Inv;
    ReachableInv(s);
    var actions :| Run(s, actions, end);
    RunKeeps(s, actions, end);
  }

  /** An approved, scheduled or published release has every slot filled and the client's sign-off where required. */
  lemma ApprovedIsApproved(s: Desk, r: nat)
    requires Reachable(s) && r < |s.releases| && !(s.releases[r].status in {DraftRelease, ApprovalRequested})
    ensures forall k :: k in s.releases[r].approvals ==> s.releases[r].approvals[k]
    ensures s.releases[r].uatRequired ==> s.releases[r].uatStatus == Some(UatApproved)
  {
    ReachableInv(s);
    ReleaseAt(s, r);
  }

  /** No development task is in two releases, or twice in one. */
  lemma OneReleaseOnce(s: Desk, r1: nat, i: nat, r2: nat, j: nat)
    requires Reachable(s) && r1 < |s.releases| && i < |s.releases[r1].tasks|
    requires r2 < |s.releases| && j < |s.releases[r2].tasks|
    requires s.releases[r1].tasks[i] == s.releases[r2].tasks[j]
    ensures r1 == r2 && i == j
  {
    ReachableInv(s);
    assert s.releases[r1].tasks[i] in s.releases[r1].tasks;
    assert s.releases[r2].tasks[j] in s.releases[r2].tasks;
    assert NoDuplicates(s.releases[r1].tasks);
  }
}
