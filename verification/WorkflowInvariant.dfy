/** What holds of the desk in every reachable state. */
module WorkflowInvariant {
  import opened Workflow

  // ----- one task -----

  /** Statuses that are always followed at once by another. */
  predicate Transient(status: Status) {
    status in {QaPassed, QaFailed, PublishedLive, LiveFailed, FixSubmitted}
  }

  /** Where a blocked task will re-enter. */
  predicate BlockedFrom(status: Status) {
    !(status in {Completed, Cancelled, Blocked, Assigned, Draft, CodeReview}) && !Transient(status)
  }

  /** The status, seen through a block. */
  function Effective(t: Task): Status {
    if t.status == Blocked && t.prev.Some? then t.prev.value else t.status
  }

  predicate NeedsQa(status: Status) {
    status in {ClientUat, ReadyToPublish, PublishedLive, LiveVerification, Completed}
  }

  /** Entries that make an earlier QA pass void. */
  predicate VoidsQa(status: Status) {
    status in {InProgress, ReturnedToDev, RollbackRequired, TestingStaging}
  }

  /** There is a QA_PASSED entry, more recent than every entry that would void it. */
  predicate QaStands(history: seq<Entry>) {
    exists i :: 0 <= i < |history| && history[i].to == QaPassed && forall j :: i < j < |history| ==> !VoidsQa(history[j].to)
  }

  /** The one entry that does not start where the one before it ended: rolling back a task that is live. */
  predicate RollbackLink(a: Entry, b: Entry) {
    a.to == LiveVerification && b == Entry(RollbackRequired, ReturnedToDev)
  }

  predicate Connected(history: seq<Entry>) {
    forall i :: 1 <= i < |history| ==> history[i].from == history[i - 1].to || RollbackLink(history[i - 1], history[i])
  }

  /** The history starts from the assigned task, is connected, and ends where the task is. */
  predicate Traced(t: Task) {
    && Connected(t.history)
    && if t.history == [] then t.status in {Draft, Assigned}
       else
         && !(t.status in {Draft, Assigned})
         && t.history[0].from == Assigned
         && t.history[|t.history| - 1].to == t.status
  }

  predicate DevSound(t: Task) {
    && Traced(t)
    && t.status != Cancelled
    && t.category == "Development"
    && (t.status == Blocked ==> t.prev.Some? && BlockedFrom(t.prev.value))
    && (NeedsQa(Effective(t)) ==> QaStands(t.history))
    && (Effective(t) in {CodeReview, ReadyForQa} ==> t.pr.Some?)
  }

  predicate MgmtSound(t: Task) {
    t.ticket.None? && t.status in {Draft, Assigned, InProgress, Completed}
  }

  predicate Sound(t: Task) {
    if t.kind == Dev then DevSound(t) else MgmtSound(t)
  }

  /** What one history entry needs, whoever writes it. */
  predicate Sensible(t: Task, to: Status) {
    && t.status != Completed
    && if t.kind == Mgmt then to in {InProgress, Completed}
       else
         && t.status != Draft && !(to in {Draft, Assigned, Cancelled})
         && (NeedsQa(to) ==> QaStands(t.history))
         && (to == Blocked ==> t.prev == Some(t.status) && BlockedFrom(t.status))
         && (to == ReadyForQa ==> t.pr.Some?)
  }

  lemma QaStandsAfter(history: seq<Entry>, e: Entry)
    ensures e.to == QaPassed ==> QaStands(history + [e])
    ensures QaStands(history) && !VoidsQa(e.to) ==> QaStands(history + [e])
  {
    var h := history + [e];
    if e.to == QaPassed {
      assert h[|history|].to == QaPassed;
    } else if QaStands(history) && !VoidsQa(e.to) {
      var i :| 0 <= i < |history| && history[i].to == QaPassed && forall j :: i < j < |history| ==> !VoidsQa(history[j].to);
      assert h[i].to == QaPassed;
    }
  }

  lemma ConnectedAfter(history: seq<Entry>, e: Entry)
    requires Connected(history)
    requires history != [] ==> e.from == history[|history| - 1].to || RollbackLink(history[|history| - 1], e)
    ensures Connected(history + [e])
  {
  }

  lemma MovedIsTraced(t: Task, to: Status)
    requires Traced(t) && t.status != Draft && !(to in {Draft, Assigned})
    ensures Traced(Moved(t, to))
  {
    hide Connected;
    MovedLinks(t, to);
    ConnectedAfter(t.history, Entry(t.status, to));
  }

  /** Which fields a history entry leaves alone. */
  lemma MovedLinks(t: Task, to: Status)
    ensures SameLinks(t, Moved(t, to))
    ensures Moved(t, to).status == to && Moved(t, to).history == t.history + [Entry(t.status, to)]
    ensures Moved(t, to).project == t.project && Moved(t, to).clientVisible == t.clientVisible
    ensures Moved(t, to).category == t.category && Moved(t, to).prev == t.prev
    ensures t.pr.Some? || to == CodeReview || to == ReadyForQa ==> Moved(t, to).pr.Some?
  {
  }

  lemma MovedIsSound(t: Task, to: Status)
    requires Sound(t) && Sensible(t, to)
    ensures Sound(Moved(t, to))
  {
    hide Traced, QaStands, Moved;
    MovedLinks(t, to);
    if t.kind == Dev {
      MovedIsTraced(t, to);
      QaStandsAfter(t.history, Entry(t.status, to));
    }
  }

  // ----- the whole desk -----

  predicate TasksSound(tasks: seq<Task>) {
    forall id :: 0 <= id < |tasks| ==> Sound(tasks[id])
  }

  /** Tasks and tickets name each other. */
  predicate TicketsAgree(tasks: seq<Task>, tickets: seq<Ticket>) {
    && (forall ti, id: nat {:trigger id in tickets[ti].tasks} :: 0 <= ti < |tickets| && id in tickets[ti].tasks ==>
          id < |tasks| && tasks[id].ticket == Some(ti))
    && (forall id :: 0 <= id < |tasks| && tasks[id].ticket.Some? ==>
          tasks[id].ticket.value < |tickets| && id in tickets[tasks[id].ticket.value].tasks)
  }

  /** A resolved or closed ticket has only completed tasks. */
  predicate TicketsDone(tasks: seq<Task>, tickets: seq<Ticket>) {
    forall ti, id: nat {:trigger id in tickets[ti].tasks} ::
      0 <= ti < |tickets| && tickets[ti].status in {Resolved, Closed} && id in tickets[ti].tasks ==>
        id < |tasks| && tasks[id].status == Completed
  }

  predicate NoDuplicates(ids: seq<nat>) {
    forall i, j :: 0 <= i < j < |ids| ==> ids[i] != ids[j]
  }

  /** Development tasks and releases name each other, each task once. */
  predicate ReleasesAgree(tasks: seq<Task>, releases: seq<Release>) {
    && (forall r :: 0 <= r < |releases| ==> NoDuplicates(releases[r].tasks))
    && (forall r, id: nat {:trigger id in releases[r].tasks} :: 0 <= r < |releases| && id in releases[r].tasks ==>
          id < |tasks| && tasks[id].kind == Dev && tasks[id].release == Some(r))
    && (forall id :: 0 <= id < |tasks| && tasks[id].kind == Dev && tasks[id].release.Some? ==>
          tasks[id].release.value < |releases| && id in releases[tasks[id].release.value].tasks)
  }

  predicate Waiting(r: Release) {
    r.status in {DraftRelease, ApprovalRequested}
  }

  /** Past the request for approval, every slot is filled and the client has signed off where required. */
  predicate ReleaseSound(r: Release) {
    !Waiting(r) ==> AllApproved(r) && SignedOff(r)
  }

  predicate ReleasesSound(releases: seq<Release>) {
    forall r :: 0 <= r < |releases| ==> ReleaseSound(releases[r])
  }

  predicate Shipped(r: Release) {
    r.status in {Published, Verified, Failed, RolledBack}
  }

  /** Only a release that went out has a live verification. */
  predicate LiveChecksAgree(qas: seq<Qa>, releases: seq<Release>) {
    forall q :: 0 <= q < |qas| && qas[q].kind == Live ==>
      qas[q].release.Some? && qas[q].release.value < |releases| && Shipped(releases[qas[q].release.value])
  }

  predicate HasUat(uats: seq<Uat>, r: nat) {
    exists i :: 0 <= i < |uats| && uats[i].release == Some(r)
  }

  /** A release has at most one sign-off request; while it is pending the release waits for it. */
  predicate UatsAgree(uats: seq<Uat>, releases: seq<Release>) {
    && (forall i :: 0 <= i < |uats| && uats[i].release.Some? ==> uats[i].release.value < |releases|)
    && (forall i :: 0 <= i < |uats| && uats[i].release.Some? && uats[i].status == UatPending ==>
          var r := releases[uats[i].release.value];
          r.uatRequired && r.uatStatus.None? && Waiting(r))
    && (forall i, j :: 0 <= i < j < |uats| && uats[i].release.Some? ==> uats[i].release != uats[j].release)
    && (forall r :: 0 <= r < |releases| && releases[r].uatStatus.Some? ==> releases[r].uatRequired && HasUat(uats, r))
  }

  /** Everything but that no task rests in a transient status: this also holds between two history entries. */
  predicate Linked(s: Desk) {
    && TasksSound(s.tasks)
    && TicketsAgree(s.tasks, s.tickets) && TicketsDone(s.tasks, s.tickets)
    && ReleasesAgree(s.tasks, s.releases) && ReleasesSound(s.releases)
    && UatsAgree(s.uats, s.releases) && LiveChecksAgree(s.qas, s.releases)
  }

  predicate AllRest(tasks: seq<Task>) {
    forall id :: 0 <= id < |tasks| ==> !Transient(tasks[id].status)
  }

  predicate Inv(s: Desk) {
    Linked(s) && AllRest(s.tasks)
  }

  // ----- what the engine keeps -----

  /** No task disappears or changes kind, and a completed development task stays completed. */
  predicate Steady(before: seq<Task>, after: seq<Task>) {
    && |before| <= |after|
    && forall id :: 0 <= id < |before| ==>
         after[id].kind == before[id].kind &&
         (before[id].kind == Dev && before[id].status == Completed ==> after[id].status == Completed)
  }

  /** Only task `id` changed, and not its links; new rows are management tasks. */
  predicate OnlyTask(before: seq<Task>, after: seq<Task>, id: nat) {
    && id < |before| <= |after|
    && (forall j :: 0 <= j < |before| && j != id ==> after[j] == before[j])
    && (forall j :: |before| <= j < |after| ==> after[j].kind == Mgmt && after[j].status == Assigned)
    && SameLinks(before[id], after[id])
  }

  predicate SameLinks(a: Task, b: Task) {
    a.kind == b.kind && a.ticket == b.ticket && a.release == b.release
  }

  lemma PutTickets(tasks: seq<Task>, id: nat, t: Task, tickets: seq<Ticket>)
    requires TicketsAgree(tasks, tickets) && TicketsDone(tasks, tickets) && id < |tasks|
    requires SameLinks(tasks[id], t) && (tasks[id].status == Completed ==> t.status == Completed)
    ensures TicketsAgree(tasks[id := t], tickets) && TicketsDone(tasks[id := t], tickets)
  {
    var after := tasks[id := t];
    forall ti, j: nat | 0 <= ti < |tickets| && j in tickets[ti].tasks ensures j < |after| && after[j].ticket == Some(ti) {
      assert j < |tasks| && tasks[j].ticket == Some(ti);
    }
    forall j | 0 <= j < |after| && after[j].ticket.Some?
      ensures after[j].ticket.value < |tickets| && j in tickets[after[j].ticket.value].tasks
    {
      assert tasks[j].ticket == after[j].ticket;
    }
    forall ti, j: nat | 0 <= ti < |tickets| && tickets[ti].status in {Resolved, Closed} && j in tickets[ti].tasks
      ensures j < |after| && after[j].status == Completed
    {
      assert j < |tasks| && tasks[j].status == Completed;
    }
  }

  lemma PutReleases(tasks: seq<Task>, id: nat, t: Task, releases: seq<Release>)
    requires ReleasesAgree(tasks, releases) && id < |tasks| && SameLinks(tasks[id], t)
    ensures ReleasesAgree(tasks[id := t], releases)
  {
    hide NoDuplicates;
    var after := tasks[id := t];
    forall r, j: nat | 0 <= r < |releases| && j in releases[r].tasks
      ensures j < |after| && after[j].kind == Dev && after[j].release == Some(r)
    {
      assert j < |tasks| && tasks[j].kind == Dev && tasks[j].release == Some(r);
    }
    forall j | 0 <= j < |after| && after[j].kind == Dev && after[j].release.Some?
      ensures after[j].release.value < |releases| && j in releases[after[j].release.value].tasks
    {
      assert tasks[j].release == after[j].release && tasks[j].kind == after[j].kind;
    }
  }

  lemma PutSound(tasks: seq<Task>, id: nat, t: Task)
    requires TasksSound(tasks) && id < |tasks| && Sound(t)
    ensures TasksSound(tasks[id := t])
  {
    hide Sound;
  }

  lemma PutKeeps(s: Desk, id: nat, t: Task)
    requires Linked(s) && id < |s.tasks|
    requires Sound(t) && SameLinks(s.tasks[id], t)
    requires s.tasks[id].status == Completed ==> t.status == Completed
    ensures Linked(WithTask(s, id, t))
  {
    hide TasksSound, TicketsAgree, TicketsDone, ReleasesAgree, ReleasesSound, UatsAgree, LiveChecksAgree, Sound;
    PutSound(s.tasks, id, t);
    PutTickets(s.tasks, id, t, s.tickets);
    PutReleases(s.tasks, id, t, s.releases);
  }

  lemma TicketRow(tasks: seq<Task>, tickets: seq<Ticket>, ti: nat, ticket: Ticket)
    requires TicketsAgree(tasks, tickets) && TicketsDone(tasks, tickets) && ti < |tickets|
    requires ticket.tasks == tickets[ti].tasks
    requires ticket.status in {Resolved, Closed} ==>
      forall k :: 0 <= k < |ticket.tasks| ==> ticket.tasks[k] < |tasks| && tasks[ticket.tasks[k]].status == Completed
    ensures TicketsAgree(tasks, tickets[ti := ticket]) && TicketsDone(tasks, tickets[ti := ticket])
  {
    var after := tickets[ti := ticket];
    forall i, j: nat | 0 <= i < |after| && j in after[i].tasks ensures j < |tasks| && tasks[j].ticket == Some(i) {
      assert j in tickets[i].tasks;
    }
    forall j | 0 <= j < |tasks| && tasks[j].ticket.Some?
      ensures tasks[j].ticket.value < |after| && j in after[tasks[j].ticket.value].tasks
    {
      assert j in tickets[tasks[j].ticket.value].tasks;
    }
    forall i, j: nat | 0 <= i < |after| && after[i].status in {Resolved, Closed} && j in after[i].tasks
      ensures j < |tasks| && tasks[j].status == Completed
    {
      assert j in tickets[i].tasks;
    }
  }

  lemma TicketKeeps(s: Desk, ti: nat, status: TicketStatus)
    requires Linked(s) && ti < |s.tickets|
    requires status in {Resolved, Closed} ==> AllCompleted(s, s.tickets[ti].tasks)
    ensures Linked(WithTicket(s, ti, status))
  {
    hide TasksSound, TicketsAgree, TicketsDone, ReleasesSound, ReleasesAgree, UatsAgree, LiveChecksAgree;
    TicketRow(s.tasks, s.tickets, ti, s.tickets[ti].(status := status));
  }

  /** A new row that no ticket and no release names. */
  lemma NewRow(tasks: seq<Task>, t: Task, tickets: seq<Ticket>, releases: seq<Release>)
    requires TasksSound(tasks) && Sound(t) && t.ticket.None? && (t.kind == Dev ==> t.release.None?)
    requires TicketsAgree(tasks, tickets) && TicketsDone(tasks, tickets) && ReleasesAgree(tasks, releases)
    ensures TasksSound(tasks + [t])
    ensures TicketsAgree(tasks + [t], tickets) && TicketsDone(tasks + [t], tickets)
    ensures ReleasesAgree(tasks + [t], releases)
  {
    hide Sound, NoDuplicates;
    var after := tasks + [t];
    assert forall j :: 0 <= j < |tasks| ==> after[j] == tasks[j];
    forall i, j: nat | 0 <= i < |tickets| && j in tickets[i].tasks ensures j < |after| && after[j].ticket == Some(i) {
      assert tasks[j].ticket == Some(i);
    }
    forall j | 0 <= j < |after| && after[j].ticket.Some?
      ensures after[j].ticket.value < |tickets| && j in tickets[after[j].ticket.value].tasks
    {
      assert j < |tasks| && after[j] == tasks[j];
    }
    forall i, j: nat | 0 <= i < |tickets| && tickets[i].status in {Resolved, Closed} && j in tickets[i].tasks
      ensures j < |after| && after[j].status == Completed
    {
      assert tasks[j].status == Completed;
    }
    forall r, j: nat | 0 <= r < |releases| && j in releases[r].tasks
      ensures j < |after| && after[j].kind == Dev && after[j].release == Some(r)
    {
      assert tasks[j].kind == Dev && tasks[j].release == Some(r);
    }
    forall j | 0 <= j < |after| && after[j].kind == Dev && after[j].release.Some?
      ensures after[j].release.value < |releases| && j in releases[after[j].release.value].tasks
    {
      assert j < |tasks| && after[j] == tasks[j];
    }
  }

  lemma NewRowKeeps(s: Desk, t: Task)
    requires Linked(s) && Sound(t) && t.ticket.None? && (t.kind == Dev ==> t.release.None?)
    ensures Linked(s.(tasks := s.tasks + [t]))
  {
    hide TasksSound, TicketsAgree, TicketsDone, ReleasesAgree, ReleasesSound, UatsAgree, LiveChecksAgree, Sound;
    NewRow(s.tasks, t, s.tickets, s.releases);
  }

  lemma UatJoinKeeps(uats: seq<Uat>, releases: seq<Release>, org: string, id: nat)
    requires UatsAgree(uats, releases)
    ensures UatsAgree(JoinUat(uats, org, id), releases)
  {
    OpenUatIsOpen(uats, org);
    hide Waiting;
    var after := JoinUat(uats, org, id);
    assert forall i :: 0 <= i < |uats| ==> after[i].release == uats[i].release && after[i].status == uats[i].status;
    assert |after| > |uats| ==> after[|uats|].release.None?;
    forall r | 0 <= r < |releases| && HasUat(uats, r) ensures HasUat(after, r) {
      var i :| 0 <= i < |uats| && uats[i].release == Some(r);
      assert after[i].release == Some(r);
    }
  }

  lemma QaRowKeeps(qas: seq<Qa>, q: Qa, releases: seq<Release>)
    requires LiveChecksAgree(qas, releases)
    requires q.kind == Live ==> q.release.Some? && q.release.value < |releases| && Shipped(releases[q.release.value])
    ensures LiveChecksAgree(qas + [q], releases)
  {
  }

  /** No resolved or closed ticket changes its status. */
  predicate TicketsHold(before: seq<Ticket>, after: seq<Ticket>) {
    && |before| <= |after|
    && forall ti :: 0 <= ti < |before| && before[ti].status in {Resolved, Closed} ==>
         after[ti].status == before[ti].status
  }

  /** The task's ticket, if it has one, is neither resolved nor closed. */
  predicate TicketOpen(s: Desk, id: nat)
    requires id < |s.tasks|
  {
    var ticket := s.tasks[id].ticket;
    ticket.Some? && ticket.value < |s.tickets| ==> !(s.tickets[ticket.value].status in {Resolved, Closed})
  }

  /** Whatever is not completed has an open ticket. */
  lemma UnfinishedIsOpen(s: Desk, id: nat)
    requires Linked(s) && id < |s.tasks| && s.tasks[id].status != Completed
    ensures TicketOpen(s, id)
  {
    hide TasksSound, ReleasesAgree, ReleasesSound, UatsAgree, LiveChecksAgree;
    var ticket := s.tasks[id].ticket;
    if ticket.Some? && ticket.value < |s.tickets| {
      assert id in s.tickets[ticket.value].tasks;
    }
  }

  lemma EffectsKeep(s: Desk, id: nat, from: Status, to: Status)
    requires Linked(s) && id < |s.tasks| && s.tasks[id].status == to && TicketOpen(s, id)
    ensures Linked(Effects(s, id, from, to))
    ensures TicketsHold(s.tickets, Effects(s, id, from, to).tickets)
    ensures to != Completed ==> Effects(s, id, from, to).tickets == s.tickets
    ensures OnlyTask(s.tasks, Effects(s, id, from, to).tasks, id)
    ensures Effects(s, id, from, to).tasks[id] == s.tasks[id]
  {
    hide TasksSound, TicketsAgree, TicketsDone, ReleasesAgree, ReleasesSound, UatsAgree, LiveChecksAgree;
    var t := s.tasks[id];
    match to
    case CodeReview => NewRowKeeps(s, MgmtTask("Review", t.reviewer, t.project, Some(id)));
    case TestingStaging =>
      var kind := if from == FixSubmitted || from == ReturnedToDev then Retest else FirstTest;
      QaRowKeeps(s.qas, Qa(id, None, kind, QaPending), s.releases);
    case ClientUat => UatJoinKeeps(s.uats, s.releases, ProjectOf(s, t.project).org, id);
    case Completed =>
      if t.ticket.Some? && t.ticket.value < |s.tickets| && AllCompleted(s, s.tickets[t.ticket.value].tasks) {
        TicketKeeps(s, t.ticket.value, Resolved);
      }
    case _ =>
  }

  lemma TicketFollowsKeeps(s: Desk, id: nat, to: Status)
    requires Linked(s) && id < |s.tasks| && (to != Completed ==> TicketOpen(s, id))
    ensures Linked(TicketFollows(s, id, to))
    ensures TicketsHold(s.tickets, TicketFollows(s, id, to).tickets)
  {
    hide TasksSound, TicketsAgree, TicketsDone, ReleasesAgree, ReleasesSound, UatsAgree, AllCompleted;
    var ticket := s.tasks[id].ticket;
    if ticket.Some? && ticket.value < |s.tickets| {
      TicketKeeps(s, ticket.value, Review);
      TicketKeeps(s, ticket.value, TicketInProgress);
    }
  }

  /** Where a transition leaves the task: after the automatic step, if there is one. */
  function Landing(s: Desk, t: Task, to: Status): Status {
    var next := FollowUp(s, t, to);
    if next.Some? then next.value else to
  }

  /** The history entries a transition writes: one, or two when the first status is transient. */
  function Entries(s: Desk, t: Task, to: Status): seq<Entry> {
    var next := FollowUp(s, t, to);
    [Entry(t.status, to)] + if next.Some? then [Entry(to, next.value)] else []
  }

  lemma FollowUpIsSensible(s: Desk, t: Task, to: Status)
    requires Sound(t) && Sensible(t, to) && FollowUp(s, t, to).Some?
    ensures Sensible(Moved(t, to), FollowUp(s, t, to).value)
    ensures FollowUp(s, Moved(t, to), FollowUp(s, t, to).value).None?
  {
    hide QaStands, Connected;
    QaStandsAfter(t.history, Entry(t.status, to));
  }

  /** Main: a sensible transition keeps every link, touches no other task, and takes at most one automatic step. */
  lemma {:induction false} TransitionKeeps(s: Desk, id: nat, to: Status)
    requires Linked(s) && id < |s.tasks| && Sensible(s.tasks[id], to)
    ensures Linked(Transition(s, id, to))
    ensures OnlyTask(s.tasks, Transition(s, id, to).tasks, id)
    ensures TicketsHold(s.tickets, Transition(s, id, to).tickets)
    ensures Transition(s, id, to).tasks[id].status == Landing(s, s.tasks[id], to)
    ensures Transition(s, id, to).tasks[id].history == s.tasks[id].history + Entries(s, s.tasks[id], to)
    decreases if FollowUp(s, s.tasks[id], to).Some? then 1 else 0
  {
    hide Linked, Effects, TicketFollows, Sound, Sensible, Moved, FollowUp;
    var t := s.tasks[id];
    var moved := WithTask(s, id, Moved(t, to));
    TaskIsSound(s, id);
    MovedIsSound(t, to);
    MovedLinks(t, to);
    NotCompleted(t, to);
    PutKeeps(s, id, Moved(t, to));
    UnfinishedIsOpen(s, id);
    var next := FollowUp(s, t, to);
    if next.Some? {
      FollowUpIsSensible(s, t, to);
      SameFollowUp(s, moved, Moved(t, to), next.value);
      TransitionKeeps(moved, id, next.value);
      assert t.history + [Entry(t.status, to)] + [Entry(to, next.value)] == t.history + Entries(s, t, to);
    } else {
      EffectsKeep(moved, id, t.status, to);
      TicketFollowsKeeps(Effects(moved, id, t.status, to), id, to);
    }
  }

  lemma TaskIsSound(s: Desk, id: nat)
    requires Linked(s) && id < |s.tasks|
    ensures Sound(s.tasks[id])
  {
  }

  lemma NotCompleted(t: Task, to: Status)
    requires Sensible(t, to)
    ensures t.status != Completed
  {
  }

  lemma SameFollowUp(s: Desk, moved: Desk, t: Task, to: Status)
    requires moved.projects == s.projects
    ensures FollowUp(moved, t, to) == FollowUp(s, t, to)
  {
  }
}
