/** The desk's workflow: tasks, tickets, QA assignments, client sign-offs and releases, and what each button does. */
module Workflow {
  datatype Option<+T> = None | Some(value: T)

  // ----- entities -----

  datatype Status =
    | Draft | Assigned | InProgress | DevCompleted | CodeReview | ReadyForQa | TestingStaging | QaPassed | ClientUat
    | ReadyToPublish | PublishedLive | LiveVerification | Completed | QaFailed | ReturnedToDev | FixSubmitted
    | LiveFailed | RollbackRequired | Blocked | Cancelled

  datatype Kind = Dev | Mgmt

  datatype Entry = Entry(from: Status, to: Status)

  datatype PrState = ReviewRequested | PrApproved | ChangesRequested

  datatype Check = Passing | Failing | Running | Queued

  /** A task.  Its id is its position in the list of tasks. */
  datatype Task = Task(
    kind: Kind, category: string, status: Status, prev: Option<Status>, project: string,
    assignedTo: Option<string>, reviewer: Option<string>, ticket: Option<nat>, release: Option<nat>, linked: Option<nat>,
    clientVisible: bool, pr: Option<PrState>, checks: Option<map<string, Check>>, overridden: bool, reviewApproved: bool,
    staging: bool, history: seq<Entry>)

  datatype TicketStatus =
    | NewTicket | TicketAssigned | TicketInProgress | WaitingClient | Review | Resolved | Closed | Reopened | TicketCancelled
    | AutoAssigned | Acknowledged | Escalated

  datatype Ticket = Ticket(project: string, status: TicketStatus, tasks: seq<nat>)

  datatype QaKind = FirstTest | Retest | Live

  datatype QaStatus = QaPending | QaStarted | Clarification | QaOk | QaBad

  datatype Qa = Qa(task: nat, release: Option<nat>, kind: QaKind, status: QaStatus)

  datatype UatStatus = UatPending | UatApproved | UatChanges

  datatype Uat = Uat(release: Option<nat>, tasks: seq<nat>, org: string, status: UatStatus)

  datatype ReleaseStatus =
    | DraftRelease | ApprovalRequested | ReleaseApproved | Scheduled | Published | Verified | Failed | RolledBack

  datatype Release = Release(
    project: string, status: ReleaseStatus, tasks: seq<nat>, approvals: map<string, bool>, uatRequired: bool,
    uatStatus: Option<UatStatus>)

  datatype Project = Project(org: string, uatRequired: bool, approvers: seq<string>, senior: Option<string>,
    reviewer: Option<string>, tester: Option<string>)

  /** All the data.  The source puts new rows in front; here they are appended, so the newest has the largest id. */
  datatype Desk = Desk(
    tasks: seq<Task>, tickets: seq<Ticket>, qas: seq<Qa>, uats: seq<Uat>, releases: seq<Release>,
    projects: map<string, Project>, requiredChecks: seq<string>)

  const NO_PROJECT := Project("", false, [], None, None, None)

  function ProjectOf(s: Desk, id: string): Project {
    if id in s.projects then s.projects[id] else NO_PROJECT
  }

  // ----- one transition -----

  const FRESH_CHECKS: map<string, Check> := map[
    "build" := Passing, "lint" := Passing, "unit" := Passing, "api" := Running, "security" := Queued, "e2e" := Passing]

  /** The task after one history entry, with what entering the status writes on the task itself. */
  function Moved(t: Task, to: Status): Task {
    var u := t.(history := t.history + [Entry(t.status, to)], status := to);
    if to == CodeReview then u.(pr := if t.pr.None? then Some(ReviewRequested) else t.pr, checks := Some(FRESH_CHECKS))
    else if to == ReadyForQa then u.(pr := Some(PrApproved), staging := true)
    else u
  }

  /** The statuses a task never stays in, with what follows at once. */
  function FollowUp(s: Desk, t: Task, to: Status): Option<Status> {
    match to
    case QaPassed => Some(if ProjectOf(s, t.project).uatRequired && t.clientVisible then ClientUat else ReadyToPublish)
    case QaFailed => Some(ReturnedToDev)
    case PublishedLive => Some(LiveVerification)
    case LiveFailed => Some(RollbackRequired)
    case _ => None
  }

  function WithTask(s: Desk, id: nat, t: Task): Desk
    requires id < |s.tasks|
  {
    s.(tasks := s.tasks[id := t])
  }

  function WithTicket(s: Desk, ti: nat, status: TicketStatus): Desk
    requires ti < |s.tickets|
  {
    s.(tickets := s.tickets[ti := s.tickets[ti].(status := status)])
  }

  function MgmtTask(category: string, assignedTo: Option<string>, project: string, linked: Option<nat>): Task {
    Task(Mgmt, category, Assigned, None, project, assignedTo, None, None, None, linked,
         false, None, None, false, false, false, [])
  }

  function AddMgmtTask(s: Desk, category: string, assignedTo: Option<string>, project: string, linked: Option<nat>): Desk {
    s.(tasks := s.tasks + [MgmtTask(category, assignedTo, project, linked)])
  }

  /** The newest pending sign-off of the organisation that belongs to no release. */
  function OpenUat(uats: seq<Uat>, org: string): Option<nat> {
    if uats == [] then None
    else
      var u := uats[|uats| - 1];
      if u.status == UatPending && u.org == org && u.release.None? then Some(|uats| - 1)
      else OpenUat(uats[..|uats| - 1], org)
  }

  lemma {:induction false} OpenUatIsOpen(uats: seq<Uat>, org: string)
    ensures OpenUat(uats, org).Some? ==>
      var i := OpenUat(uats, org).value;
      i < |uats| && uats[i].release.None? && uats[i].status == UatPending
  {
    if uats != [] {
      OpenUatIsOpen(uats[..|uats| - 1], org);
    }
  }

  function JoinUat(uats: seq<Uat>, org: string, id: nat): seq<Uat> {
    OpenUatIsOpen(uats, org);
    var open := OpenUat(uats, org);
    if open.Some? then uats[open.value := uats[open.value].(tasks := uats[open.value].tasks + [id])]
    else uats + [Uat(None, [id], org, UatPending)]
  }

  predicate AllCompleted(s: Desk, ids: seq<nat>) {
    forall k :: 0 <= k < |ids| ==> ids[k] < |s.tasks| && s.tasks[ids[k]].status == Completed
  }

  /** What entering a resting status does beyond the task. */
  function Effects(s: Desk, id: nat, from: Status, to: Status): (r: Desk)
    requires id < |s.tasks|
    ensures |s.tasks| <= |r.tasks| && r.releases == s.releases
  {
    var t := s.tasks[id];
    match to
    case CodeReview => AddMgmtTask(s, "Review", t.reviewer, t.project, Some(id))
    case TestingStaging =>
      var kind := if from == FixSubmitted || from == ReturnedToDev then Retest else FirstTest;
      s.(qas := s.qas + [Qa(id, None, kind, QaPending)])
    case ClientUat => s.(uats := JoinUat(s.uats, ProjectOf(s, t.project).org, id))
    case Completed =>
      if t.ticket.Some? && t.ticket.value < |s.tickets| && AllCompleted(s, s.tickets[t.ticket.value].tasks)
      then WithTicket(s, t.ticket.value, Resolved) else s
    case _ => s
  }

  /** The last line of `transition`: the linked ticket follows the task. */
  function TicketFollows(s: Desk, id: nat, to: Status): (r: Desk)
    requires id < |s.tasks|
    ensures r.tasks == s.tasks && r.releases == s.releases
  {
    var ticket := s.tasks[id].ticket;
    if ticket.None? || ticket.value >= |s.tickets| then s
    else if to == TestingStaging || to == QaPassed || to == ReadyToPublish then WithTicket(s, ticket.value, Review)
    else if (to == InProgress || to == ReturnedToDev) && !(s.tickets[ticket.value].status in {Resolved, Closed})
    then WithTicket(s, ticket.value, TicketInProgress)
    else s
  }

  function Transition(s: Desk, id: nat, to: Status): (r: Desk)
    requires id < |s.tasks|
    ensures |s.tasks| <= |r.tasks|
    ensures r.releases == s.releases
    decreases if FollowUp(s, s.tasks[id], to).Some? then 1 else 0
  {
    hide Effects, TicketFollows, Moved;
    var t := s.tasks[id];
    var moved := WithTask(s, id, Moved(t, to));
    var next := FollowUp(s, t, to);
    if next.Some? then Transition(moved, id, next.value)
    else TicketFollows(Effects(moved, id, t.status, to), id, to)
  }

  /** `forEach` over linked tasks: those in one of the given statuses move. */
  function Each(s: Desk, ids: seq<nat>, when: set<Status>, to: Status): (r: Desk)
    ensures r.releases == s.releases
    decreases |ids|
  {
    if ids == [] then s
    else
      var id := ids[0];
      Each(if id < |s.tasks| && s.tasks[id].status in when then Transition(s, id, to) else s, ids[1..], when, to)
  }

  // ----- guards -----

  predicate ChecksOk(s: Desk, t: Task) {
    || t.overridden
    || (t.checks.Some? &&
        forall k :: 0 <= k < |s.requiredChecks| ==>
          s.requiredChecks[k] in t.checks.value && t.checks.value[s.requiredChecks[k]] == Passing)
  }

  predicate TicketClosed(status: TicketStatus) {
    status in {Resolved, Closed, TicketCancelled}
  }

  predicate Blockable(t: Task) {
    t.kind == Dev && !(t.status in {Completed, Cancelled, Blocked, Assigned, Draft, CodeReview})
  }

  predicate QaOpen(q: Qa) {
    q.status in {QaPending, QaStarted, Clarification}
  }

  predicate PastQaForPublish(t: Task) {
    t.status in {ReadyToPublish, PublishedLive, LiveVerification, Completed, ClientUat}
  }

  predicate AllApproved(r: Release) {
    forall k :: k in r.approvals ==> r.approvals[k]
  }

  predicate SignedOff(r: Release) {
    r.uatRequired ==> r.uatStatus == Some(UatApproved)
  }

  /** The publish gate of the release page. */
  predicate Publishable(s: Desk, r: Release) {
    && r.tasks != []
    && (forall k :: 0 <= k < |r.tasks| ==> r.tasks[k] < |s.tasks| && PastQaForPublish(s.tasks[r.tasks[k]]))
    && SignedOff(r) && AllApproved(r)
    && !(r.status in {Published, Verified, RolledBack, Failed})
  }

  /** Support handling between raising and resolving: the status changes that touch no task. */
  predicate SupportMoves(from: TicketStatus, to: TicketStatus) {
    match to
    case Acknowledged => from in {AutoAssigned, Escalated}
    case Escalated => !TicketClosed(from)
    case AutoAssigned => from in {NewTicket, Escalated}
    case TicketAssigned => from in {NewTicket, Reopened}
    case WaitingClient => !TicketClosed(from) && from != WaitingClient
    case TicketInProgress => from == WaitingClient
    case _ => false
  }

  // ----- the buttons -----

  datatype TaskAction =
    | CreateTask(project: string, category: string, draft: bool, assignee: Option<string>,
                 reviewer: Option<string>, clientVisible: bool)
    | AssignTask(id: nat, to: string, reviewer: Option<string>)
    | Start(id: nat)
    | Block(id: nat, who: string)
    | Unblock(id: nat)
    | DevComplete(id: nat, clientVisible: bool)
    | MgmtComplete(id: nat)
    | RequestReview(id: nat, reviewer: Option<string>)
    | ApproveReview(id: nat)
    | RequestChanges(id: nat)
    | OverrideChecks(id: nat)
    | SendForTesting(id: nat)
    | SubmitFix(id: nat)

  datatype TestAction =
    | StartTesting(q: nat)
    | Clarify(q: nat)
    | TestResult(q: nat, pass: bool)
    | VerifyLive(q: nat, pass: bool)
    | DecideUat(u: nat, approve: bool)

  datatype TicketAction =
    | RaiseTicket(project: string, routed: TicketStatus)
    | MoveTicket(ti: nat, status: TicketStatus)
    | Convert(ti: nat, project: string, first: bool, second: bool, assignee: Option<string>, clientVisible: bool)
    | StartWork(ti: nat, me: string, clientVisible: bool)
    | Resolve(ti: nat)
    | Close(ti: nat)
    | Reopen(ti: nat)

  datatype ReleaseAction =
    | CreateRelease(project: string, includeReady: bool)
    | AddToRelease(id: nat, r: nat)
    | RequestApproval(r: nat)
    | ApproveRelease(r: nat, key: string, me: string)
    | Schedule(r: nat)
    | Publish(r: nat)
    | Rollback(r: nat)
    | EditProject(project: string, settings: Project)
    | EditChecks(required: seq<string>)

  datatype Action =
    | OnTask(task: TaskAction)
    | OnTest(test: TestAction)
    | OnTicket(ticket: TicketAction)
    | OnRelease(release: ReleaseAction)

  predicate DevIn(s: Desk, id: nat, status: Status) {
    id < |s.tasks| && s.tasks[id].kind == Dev && s.tasks[id].status == status
  }

  predicate StagingTestOffered(s: Desk, q: nat) {
    && q < |s.qas| && s.qas[q].kind != Live && QaOpen(s.qas[q])
    && s.qas[q].task < |s.tasks| && s.tasks[s.qas[q].task].status == TestingStaging
  }

  predicate AwaitsLive(s: Desk, r: nat) {
    exists id :: 0 <= id < |s.tasks| && s.tasks[id].release == Some(r) && s.tasks[id].status == LiveVerification
  }

  /** Offered on the release page while published, on the QA page while the first task awaits live verification, and
      on any such task while the assignment is pending. */
  predicate LiveTestOffered(s: Desk, q: nat) {
    && q < |s.qas| && s.qas[q].kind == Live && s.qas[q].task < |s.tasks|
    && s.qas[q].release.Some? && s.qas[q].release.value < |s.releases|
    && (|| s.releases[s.qas[q].release.value].status == Published
        || (QaOpen(s.qas[q]) && s.tasks[s.qas[q].task].status == LiveVerification)
        || (s.qas[q].status == QaPending && AwaitsLive(s, s.qas[q].release.value)))
  }

  predicate TaskOffered(s: Desk, a: TaskAction) {
    match a
    case CreateTask(project, _, _, _, _, _) => project in s.projects
    case AssignTask(id, _, _) => id < |s.tasks| && s.tasks[id].status in {Draft, Assigned}
    case Start(id) =>
      id < |s.tasks| && s.tasks[id].assignedTo.Some? && (
        s.tasks[id].status == Assigned ||
        (s.tasks[id].kind == Dev && s.tasks[id].status in {ReturnedToDev, RollbackRequired}))
    case Block(id, _) => id < |s.tasks| && Blockable(s.tasks[id])
    case Unblock(id) => DevIn(s, id, Blocked)
    case DevComplete(id, _) => DevIn(s, id, InProgress)
    case MgmtComplete(id) => id < |s.tasks| && s.tasks[id].kind == Mgmt && s.tasks[id].status in {Assigned, InProgress}
    case RequestReview(id, _) => DevIn(s, id, DevCompleted)
    case ApproveReview(id) => DevIn(s, id, CodeReview)
    case RequestChanges(id) => DevIn(s, id, CodeReview)
    case OverrideChecks(id) => DevIn(s, id, CodeReview) && !ChecksOk(s, s.tasks[id])
    case SendForTesting(id) => DevIn(s, id, ReadyForQa) && s.tasks[id].staging
    case SubmitFix(id) => DevIn(s, id, ReturnedToDev) || DevIn(s, id, RollbackRequired)
  }

  predicate TestOffered(s: Desk, a: TestAction) {
    match a
    case StartTesting(q) => q < |s.qas| && s.qas[q].status == QaPending
    case Clarify(q) => q < |s.qas| && QaOpen(s.qas[q]) && s.qas[q].kind != Live
    case TestResult(q, _) => StagingTestOffered(s, q)
    case VerifyLive(q, _) => LiveTestOffered(s, q)
    case DecideUat(u, _) => u < |s.uats| && s.uats[u].status == UatPending
  }

  predicate TicketOffered(s: Desk, a: TicketAction) {
    match a
    case RaiseTicket(project, routed) => project in s.projects && routed in {NewTicket, AutoAssigned, Escalated}
    case MoveTicket(ti, status) => ti < |s.tickets| && SupportMoves(s.tickets[ti].status, status)
    case Convert(ti, project, _, _, _, _) =>
      ti < |s.tickets| && !TicketClosed(s.tickets[ti].status) && project in s.projects
    case StartWork(ti, _, _) => ti < |s.tickets| && s.tickets[ti].status == Acknowledged
    case Resolve(ti) =>
      ti < |s.tickets| && !TicketClosed(s.tickets[ti].status) && AllCompleted(s, s.tickets[ti].tasks)
    case Close(ti) => ti < |s.tickets| && s.tickets[ti].status == Resolved
    case Reopen(ti) => ti < |s.tickets| && s.tickets[ti].status in {Resolved, Closed}
  }

  predicate ReleaseOffered(s: Desk, a: ReleaseAction) {
    match a
    case CreateRelease(project, _) => project in s.projects
    case AddToRelease(id, r) =>
      && DevIn(s, id, ReadyToPublish) && s.tasks[id].release.None?
      && r < |s.releases| && s.releases[r].project == s.tasks[id].project
      && s.releases[r].status in {DraftRelease, ApprovalRequested, ReleaseApproved}
    case RequestApproval(r) => r < |s.releases| && s.releases[r].status == DraftRelease && s.releases[r].tasks != []
    case ApproveRelease(r, key, _) =>
      && r < |s.releases| && s.releases[r].status == ApprovalRequested
      && key != "client" && key in s.releases[r].approvals && !s.releases[r].approvals[key]
    case Schedule(r) => r < |s.releases| && Publishable(s, s.releases[r])
    case Publish(r) => r < |s.releases| && Publishable(s, s.releases[r])
    case Rollback(r) => r < |s.releases| && s.releases[r].status in {Published, Failed, Verified}
    case EditProject(_, _) => true
    case EditChecks(_) => true
  }

  /** The guard of each button, apart from the role of the person pressing it. */
  predicate Offered(s: Desk, a: Action) {
    match a
    case OnTask(t) => TaskOffered(s, t)
    case OnTest(t) => TestOffered(s, t)
    case OnTicket(t) => TicketOffered(s, t)
    case OnRelease(t) => ReleaseOffered(s, t)
  }

  function NewDevTask(project: string, status: Status, assignee: Option<string>, reviewer: Option<string>,
      ticket: Option<nat>, clientVisible: bool, history: seq<Entry>): Task {
    Task(Dev, "Development", status, None, project, assignee, reviewer, ticket, None, None,
         clientVisible, None, None, false, false, false, history)
  }

  function Create(s: Desk, a: TaskAction): Desk
    requires a.CreateTask?
  {
    var t := NewDevTask(a.project, if a.draft then Draft else Assigned, a.assignee, a.reviewer, None, a.clientVisible, []);
    s.(tasks := s.tasks + [if a.category == "Development" then t else t.(kind := Mgmt, category := a.category)])
  }

  function Assign(s: Desk, id: nat, to: string, reviewer: Option<string>): Desk
    requires id < |s.tasks|
  {
    var t := s.tasks[id];
    var status := if t.status == Draft then Assigned else t.status;
    WithTask(s, id, t.(assignedTo := Some(to), reviewer := reviewer, status := status))
  }

  function BlockTask(s: Desk, id: nat, who: string): Desk
    requires id < |s.tasks|
  {
    var t := s.tasks[id];
    var blocked := Transition(WithTask(s, id, t.(prev := Some(t.status))), id, Blocked);
    AddMgmtTask(blocked, "Management", Some(who), t.project, Some(id))
  }

  /** The newest unfinished review task of a task. */
  function ReviewTask(tasks: seq<Task>, id: nat): (r: Option<nat>)
    ensures r.Some? ==> r.value < |tasks| && tasks[r.value].category == "Review" && tasks[r.value].linked == Some(id)
  {
    if tasks == [] then None
    else
      var t := tasks[|tasks| - 1];
      if t.linked == Some(id) && t.category == "Review" && t.status != Completed then Some(|tasks| - 1)
      else ReviewTask(tasks[..|tasks| - 1], id)
  }

  /** The newest unfinished approval task of a release given to `me`. */
  function ApprovalTask(tasks: seq<Task>, r: nat, me: string): (i: Option<nat>)
    ensures i.Some? ==> i.value < |tasks| && tasks[i.value].category == "Release Approval"
  {
    if tasks == [] then None
    else
      var t := tasks[|tasks| - 1];
      if t.release == Some(r) && t.category == "Release Approval" && t.assignedTo == Some(me) && t.status != Completed
      then Some(|tasks| - 1)
      else ApprovalTask(tasks[..|tasks| - 1], r, me)
  }

  /** A linked management task is completed by writing its status, without a history entry. */
  function Finish(s: Desk, found: Option<nat>): Desk
    requires found.Some? ==> found.value < |s.tasks|
  {
    if found.None? then s else WithTask(s, found.value, s.tasks[found.value].(status := Completed))
  }

  function Approve(s: Desk, id: nat): Desk
    requires id < |s.tasks|
  {
    var t := s.tasks[id];
    var ok := ChecksOk(s, t);
    var s1 := WithTask(s, id, t.(pr := Some(PrApproved), reviewApproved := true));
    var s2 := Finish(s1, ReviewTask(s1.tasks, id));
    if ok then Transition(s2, id, ReadyForQa)
    else
      var u := s2.tasks[id];
      var checks := (if u.checks.Some? then u.checks.value else map[])["api" := Passing]["security" := Passing];
      var s3 := WithTask(s2, id, u.(checks := Some(checks)));
      if ChecksOk(s3, s3.tasks[id]) then Transition(s3, id, ReadyForQa) else s3
  }

  function Override(s: Desk, id: nat): Desk
    requires id < |s.tasks|
  {
    var t := s.tasks[id];
    var s1 := WithTask(s, id, t.(overridden := true));
    if t.reviewApproved || t.pr == Some(PrApproved) then Transition(s1, id, ReadyForQa) else s1
  }

  function Fix(s: Desk, id: nat): Desk
    requires id < |s.tasks|
  {
    Transition(Transition(s, id, FixSubmitted), id, TestingStaging)
  }

  function SetQa(s: Desk, q: nat, status: QaStatus): Desk
    requires q < |s.qas|
  {
    s.(qas := s.qas[q := s.qas[q].(status := status)])
  }

  function SetRelease(s: Desk, r: nat, rel: Release): Desk
    requires r < |s.releases|
  {
    s.(releases := s.releases[r := rel])
  }

  function RecordLive(s: Desk, q: nat, pass: bool): Desk
    requires LiveTestOffered(s, q)
  {
    var r := s.qas[q].release.value;
    var rel := s.releases[r].(status := if pass then Verified else Failed);
    var s1 := SetRelease(SetQa(s, q, if pass then QaOk else QaBad), r, rel);
    Each(s1, s.releases[r].tasks, {LiveVerification}, if pass then Completed else LiveFailed)
  }

  function AddLinked(s: Desk, ti: nat, t: Task): Desk
    requires ti < |s.tickets|
  {
    var ticket := s.tickets[ti].(status := TicketInProgress, tasks := s.tickets[ti].tasks + [|s.tasks|]);
    s.(tasks := s.tasks + [t], tickets := s.tickets[ti := ticket])
  }

  function ConvertTicket(s: Desk, a: TicketAction): Desk
    requires a.Convert? && a.ti < |s.tickets|
  {
    var t := NewDevTask(
      a.project, Assigned, a.assignee, ProjectOf(s, a.project).reviewer, Some(a.ti), a.clientVisible, []);
    var s1 := if a.first then AddLinked(s, a.ti, t) else s;
    var s2 := if a.second then AddLinked(s1, a.ti, t) else s1;
    WithTicket(s2, a.ti, TicketInProgress)
  }

  /** Ready tasks of the project in no release, newest first, among the first `n`. */
  function ReadyTasks(tasks: seq<Task>, project: string, n: nat): seq<nat>
    requires n <= |tasks|
  {
    if n == 0 then []
    else
      var t := tasks[n - 1];
      (if t.project == project && t.status == ReadyToPublish && t.release.None? then [n - 1] else []) +
      ReadyTasks(tasks, project, n - 1)
  }

  function Stamped(tasks: seq<Task>, ids: seq<nat>, r: nat): (out: seq<Task>)
    ensures |out| == |tasks|
    decreases |ids|
  {
    if ids == [] then tasks
    else Stamped(if ids[0] < |tasks| then tasks[ids[0] := tasks[ids[0]].(release := Some(r))] else tasks, ids[1..], r)
  }

  function NewRelease(s: Desk, project: string, includeReady: bool): Desk {
    var p := ProjectOf(s, project);
    var ids := if includeReady then ReadyTasks(s.tasks, project, |s.tasks|) else [];
    s.(tasks := Stamped(s.tasks, ids, |s.releases|),
       releases := s.releases + [
         Release(project, DraftRelease, ids, map k | k in p.approvers :: false, p.uatRequired, None)])
  }

  function JoinRelease(s: Desk, id: nat, r: nat): Desk
    requires id < |s.tasks| && r < |s.releases|
  {
    var rel := s.releases[r].(tasks := s.releases[r].tasks + [id]);
    SetRelease(
      WithTask(s, id, s.tasks[id].(release := Some(r))), r,
      if rel.status == ReleaseApproved
      then rel.(status := ApprovalRequested, approvals := map k | k in rel.approvals :: false)
      else rel)
  }

  function ApproverUser(p: Project, key: string): Option<string> {
    match key
    case "senior" => p.senior
    case "pm" => Some("u_anita")
    case "qa" => p.tester
    case "director" => Some("u_rahul")
    case _ => None
  }

  /** One approval task for each approver but the client. */
  function ApprovalTasks(s: Desk, keys: seq<string>, p: Project, project: string, r: nat): Desk
    decreases |keys|
  {
    if keys == [] then s
    else
      var user := ApproverUser(p, keys[0]);
      var s1 := if user.None? then s
        else s.(tasks := s.tasks + [MgmtTask("Release Approval", user, project, None).(release := Some(r))]);
      ApprovalTasks(s1, keys[1..], p, project, r)
  }

  function AskApproval(s: Desk, r: nat): Desk
    requires r < |s.releases|
  {
    var rel := s.releases[r];
    var p := ProjectOf(s, rel.project);
    var s1 := ApprovalTasks(SetRelease(s, r, rel.(status := ApprovalRequested)), p.approvers, p, rel.project, r);
    if rel.uatRequired && !(exists i :: 0 <= i < |s.uats| && s.uats[i].release == Some(r))
    then s1.(uats := s1.uats + [Uat(Some(r), rel.tasks, p.org, UatPending)])
    else s1
  }

  function ApproveSlot(s: Desk, r: nat, key: string, me: string): Desk
    requires r < |s.releases|
  {
    var rel := s.releases[r].(approvals := s.releases[r].approvals[key := true]);
    var s1 := SetRelease(s, r, if AllApproved(rel) && SignedOff(rel) then rel.(status := ReleaseApproved) else rel);
    Finish(s1, ApprovalTask(s1.tasks, r, me))
  }

  function PublishNow(s: Desk, r: nat): Desk
    requires r < |s.releases| && s.releases[r].tasks != []
  {
    var rel := s.releases[r];
    var s1 := SetRelease(s, r, rel.(status := Published));
    Each(s1.(qas := s1.qas + [Qa(rel.tasks[0], Some(r), Live, QaPending)]), rel.tasks, {ReadyToPublish}, PublishedLive)
  }

  /** `rollback` writes the status and a history entry itself, always with the same `from`. */
  function RolledBackTask(t: Task): Task {
    if t.status in {LiveFailed, RollbackRequired, LiveVerification, PublishedLive}
    then t.(status := ReturnedToDev, history := t.history + [Entry(RollbackRequired, ReturnedToDev)])
    else t
  }

  function RollEach(tasks: seq<Task>, ids: seq<nat>): (out: seq<Task>)
    ensures |out| == |tasks|
    decreases |ids|
  {
    if ids == [] then tasks
    else RollEach(if ids[0] < |tasks| then tasks[ids[0] := RolledBackTask(tasks[ids[0]])] else tasks, ids[1..])
  }

  function RollBack(s: Desk, r: nat): Desk
    requires r < |s.releases|
  {
    var s1 := SetRelease(s, r, s.releases[r].(status := RolledBack));
    s1.(tasks := RollEach(s1.tasks, s1.releases[r].tasks))
  }

  function ReleaseAfterUat(r: Release, approve: bool): Release {
    if approve then
      var rel := r.(uatStatus := Some(UatApproved),
                    approvals := if "client" in r.approvals then r.approvals["client" := true] else r.approvals);
      if AllApproved(rel) then rel.(status := ReleaseApproved) else rel
    else r.(uatStatus := Some(UatChanges), status := DraftRelease)
  }

  function Decide(s: Desk, u: nat, approve: bool): Desk
    requires u < |s.uats|
  {
    var uat := s.uats[u];
    var s1 := s.(uats := s.uats[u := uat.(status := if approve then UatApproved else UatChanges)]);
    var s2 := if approve then Each(s1, uat.tasks, {ClientUat}, ReadyToPublish)
              else Each(s1, uat.tasks, {ClientUat, ReadyToPublish, QaPassed}, ReturnedToDev);
    if uat.release.None? || uat.release.value >= |s2.releases| then s2
    else SetRelease(s2, uat.release.value, ReleaseAfterUat(s2.releases[uat.release.value], approve))
  }

  function ApplyTask(s: Desk, a: TaskAction): Desk
    requires TaskOffered(s, a)
  {
    match a
    case CreateTask(_, _, _, _, _, _) => Create(s, a)
    case AssignTask(id, to, reviewer) => Assign(s, id, to, reviewer)
    case Start(id) => Transition(s, id, InProgress)
    case Block(id, who) => BlockTask(s, id, who)
    case Unblock(id) => Transition(s, id, if s.tasks[id].prev.Some? then s.tasks[id].prev.value else InProgress)
    case DevComplete(id, clientVisible) =>
      Transition(WithTask(s, id, s.tasks[id].(clientVisible := clientVisible)), id, DevCompleted)
    case MgmtComplete(id) => Transition(s, id, Completed)
    case RequestReview(id, reviewer) => Transition(WithTask(s, id, s.tasks[id].(reviewer := reviewer)), id, CodeReview)
    case ApproveReview(id) => Approve(s, id)
    case RequestChanges(id) => Transition(WithTask(s, id, s.tasks[id].(pr := Some(ChangesRequested))), id, ReturnedToDev)
    case OverrideChecks(id) => Override(s, id)
    case SendForTesting(id) => Transition(s, id, TestingStaging)
    case SubmitFix(id) => Fix(s, id)
  }

  function ApplyTest(s: Desk, a: TestAction): Desk
    requires TestOffered(s, a)
  {
    match a
    case StartTesting(q) => SetQa(s, q, QaStarted)
    case Clarify(q) => SetQa(s, q, Clarification)
    case TestResult(q, pass) =>
      Transition(SetQa(s, q, if pass then QaOk else QaBad), s.qas[q].task, if pass then QaPassed else QaFailed)
    case VerifyLive(q, pass) => RecordLive(s, q, pass)
    case DecideUat(u, approve) => Decide(s, u, approve)
  }

  function ApplyTicket(s: Desk, a: TicketAction): Desk
    requires TicketOffered(s, a)
  {
    match a
    case RaiseTicket(project, routed) => s.(tickets := s.tickets + [Ticket(project, routed, [])])
    case MoveTicket(ti, status) => WithTicket(s, ti, status)
    case Convert(_, _, _, _, _, _) => ConvertTicket(s, a)
    case StartWork(ti, me, clientVisible) =>
      var project := s.tickets[ti].project;
      var reviewer := ProjectOf(s, project).reviewer;
      AddLinked(s, ti, NewDevTask(
        project, InProgress, Some(me), reviewer, Some(ti), clientVisible, [Entry(Assigned, InProgress)]))
    case Resolve(ti) => WithTicket(s, ti, Resolved)
    case Close(ti) => WithTicket(s, ti, Closed)
    case Reopen(ti) => WithTicket(s, ti, Reopened)
  }

  function ApplyRelease(s: Desk, a: ReleaseAction): Desk
    requires ReleaseOffered(s, a)
  {
    match a
    case CreateRelease(project, includeReady) => NewRelease(s, project, includeReady)
    case AddToRelease(id, r) => JoinRelease(s, id, r)
    case RequestApproval(r) => AskApproval(s, r)
    case ApproveRelease(r, key, me) => ApproveSlot(s, r, key, me)
    case Schedule(r) => SetRelease(s, r, s.releases[r].(status := Scheduled))
    case Publish(r) => PublishNow(s, r)
    case Rollback(r) => RollBack(s, r)
    case EditProject(project, settings) => s.(projects := s.projects[project := settings])
    case EditChecks(required) => s.(requiredChecks := required)
  }

  /** What each button does. */
  function Apply(s: Desk, a: Action): Desk
    requires Offered(s, a)
  {
    match a
    case OnTask(t) => ApplyTask(s, t)
    case OnTest(t) => ApplyTest(s, t)
    case OnTicket(t) => ApplyTicket(s, t)
    case OnRelease(t) => ApplyRelease(s, t)
  }

  /** Any run of buttons, each offered when it is pressed. */
  predicate Run(s: Desk, actions: seq<Action>, end: Desk)
    decreases |actions|
  {
    if actions == [] then end == s
    else Offered(s, actions[0]) && Run(Apply(s, actions[0]), actions[1..], end)
  }

  const EMPTY := Desk([], [], [], [], [], map[], [])
}
