/** What one transition does, in the fields of the desk: where the task goes, what is created, what the ticket becomes. */
module WorkflowEngine {
  import opened Workflow

  /** The statuses that the engine leaves again at once. */
  predicate LeftAtOnce(to: Status) {
    to in {QaPassed, QaFailed, PublishedLive, LiveFailed}
  }

  /** The client must approve this task: its project asks for that, and the client can see the task. */
  predicate ForClient(s: Desk, t: Task) {
    t.project in s.projects && s.projects[t.project].uatRequired && t.clientVisible
  }

  // ----- the task -----

  /** What becomes of the task itself when it comes to rest in `to`. */
  predicate Entered(t: Task, to: Status, u: Task) {
    && u == t.(status := to, history := t.history + [Entry(t.status, to)], pr := u.pr, checks := u.checks, staging := u.staging)
    && (to != CodeReview && to != ReadyForQa ==> u.pr == t.pr && u.checks == t.checks && u.staging == t.staging)
    && (to == CodeReview ==>
          && u.pr == (if t.pr.Some? then t.pr else Some(ReviewRequested)) && u.staging == t.staging
          && u.checks == Some(map["build" := Passing, "lint" := Passing, "unit" := Passing,
                                  "e2e" := Passing, "api" := Running, "security" := Queued]))
    && (to == ReadyForQa ==> u.pr == Some(PrApproved) && u.staging && u.checks == t.checks)
  }

  lemma MovedIsEntered(t: Task, to: Status)
    ensures Entered(t, to, Moved(t, to))
  {
    assert FRESH_CHECKS == map["build" := Passing, "lint" := Passing, "unit" := Passing,
                               "e2e" := Passing, "api" := Running, "security" := Queued];
  }

  lemma RestUnfolds(s: Desk, id: nat, to: Status)
    requires id < |s.tasks| && !LeftAtOnce(to)
    ensures Transition(s, id, to) ==
      TicketFollows(Effects(WithTask(s, id, Moved(s.tasks[id], to)), id, s.tasks[id].status, to), id, to)
  {
    hide Effects, TicketFollows, Moved;
  }

  lemma PassUnfolds(s: Desk, id: nat, to: Status)
    requires id < |s.tasks| && LeftAtOnce(to)
    ensures var t := s.tasks[id];
      var next := if to == QaPassed then (if ForClient(s, t) then ClientUat else ReadyToPublish)
        else if to == QaFailed then ReturnedToDev
        else if to == PublishedLive then LiveVerification else RollbackRequired;
      Transition(s, id, to) == Transition(WithTask(s, id, Moved(t, to)), id, next)
  {
    hide Effects, TicketFollows, Moved;
  }

  /** Main: a transition to a status of rest puts the task there with one history entry and touches no other old task; a
      review makes one new task, and nothing else makes any. */
  lemma ComesToRest(s: Desk, id: nat, to: Status)
    requires id < |s.tasks| && !LeftAtOnce(to)
    ensures var t, after := s.tasks[id], Transition(s, id, to);
      && Entered(t, to, after.tasks[id])
      && after.tasks == s.tasks[id := after.tasks[id]] +
           (if to == CodeReview
            then [Task(Mgmt, "Review", Assigned, None, t.project, t.reviewer, None, None, None, Some(id),
                       false, None, None, false, false, false, [])]
            else [])
      && after.releases == s.releases && after.projects == s.projects && after.requiredChecks == s.requiredChecks
  {
    RestUnfolds(s, id, to);
    MovedIsEntered(s.tasks[id], to);
    hide Entered, Moved, JoinUat, AllCompleted;
    assert s.tasks[id := Moved(s.tasks[id], to)] + [] == s.tasks[id := Moved(s.tasks[id], to)];
  }

  /** Main: a transition to testing opens one assignment, for a retest exactly after a fix or a return; no other opens any. */
  lemma TestingOpensOne(s: Desk, id: nat, to: Status)
    requires id < |s.tasks| && !LeftAtOnce(to)
    ensures Transition(s, id, to).qas == s.qas +
      (if to == TestingStaging
       then [Qa(id, None, if s.tasks[id].status in {FixSubmitted, ReturnedToDev} then Retest else FirstTest, QaPending)]
       else [])
  {
    RestUnfolds(s, id, to);
    hide Moved, JoinUat, AllCompleted;
    assert s.qas + [] == s.qas;
  }

  // ----- the client's sign-off -----

  /** Request `u` waits for the client of the organisation and belongs to no release. */
  predicate Collecting(uats: seq<Uat>, org: string, u: nat) {
    u < |uats| && uats[u].status == UatPending && uats[u].release.None? && uats[u].org == org
  }

  lemma {:induction false} OpenUatIff(uats: seq<Uat>, org: string)
    ensures OpenUat(uats, org).Some? ==> Collecting(uats, org, OpenUat(uats, org).value)
    ensures OpenUat(uats, org).None? ==> forall u :: !Collecting(uats, org, u)
    ensures OpenUat(uats, org).Some? ==> forall u :: OpenUat(uats, org).value < u ==> !Collecting(uats, org, u)
  {
    if uats != [] {
      var n := |uats| - 1;
      OpenUatIff(uats[..n], org);
      forall u: nat | u < n && Collecting(uats, org, u) ensures Collecting(uats[..n], org, u) {
      }
    }
  }

  /** The task is on the newest collecting request, or on a new one if there was none. */
  predicate Listed(before: seq<Uat>, after: seq<Uat>, org: string, id: nat, u: nat) {
    && Collecting(after, org, u) && u <= |before|
    && (u < |before| ==>
          && Collecting(before, org, u) && after == before[u := after[u]]
          && after[u].tasks == before[u].tasks + [id])
    && (u == |before| ==> |after| == |before| + 1 && after[..|before|] == before && after[u].tasks == [id])
    && (forall v :: u < v < |before| ==> !Collecting(before, org, v))
    && (u == |before| ==> forall v :: 0 <= v < |before| ==> !Collecting(before, org, v))
  }

  lemma JoiningLists(uats: seq<Uat>, org: string, id: nat) returns (u: nat)
    ensures Listed(uats, JoinUat(uats, org, id), org, id, u)
  {
    OpenUatIff(uats, org);
    var open := OpenUat(uats, org);
    u := if open.Some? then open.value else |uats|;
  }

  /** Main: only the transition to client sign-off touches a request, and it lists the task on a pending one of the
      project's organisation. */
  lemma SignOffIsAsked(s: Desk, id: nat, to: Status)
    requires id < |s.tasks| && !LeftAtOnce(to)
    ensures var after, p := Transition(s, id, to), s.tasks[id].project;
      var org := if p in s.projects then s.projects[p].org else "";
      if to == ClientUat then exists u :: Listed(s.uats, after.uats, org, id, u)
      else after.uats == s.uats
  {
    RestUnfolds(s, id, to);
    var org := ProjectOf(s, s.tasks[id].project).org;
    var u := JoiningLists(s.uats, org, id);
    ProjectStays(s.tasks[id], to);
    hide Moved, AllCompleted, JoinUat, Listed;
  }

  lemma ProjectStays(t: Task, to: Status)
    ensures Moved(t, to).project == t.project && Moved(t, to).clientVisible == t.clientVisible && Moved(t, to).ticket == t.ticket
    ensures Moved(t, to).status == to && Moved(t, to).history == t.history + [Entry(t.status, to)]
  {
    hide Moved;
    MovedIsEntered(t, to);
  }

  lemma OneByOne(h: seq<Entry>, a: Entry, b: Entry)
    ensures h + [a] + [b] == h + [a, b]
  {
  }

  // ----- the ticket -----

  /** All the tasks of the ticket are completed. */
  predicate AllDone(s: Desk, ti: nat)
    requires ti < |s.tickets|
  {
    forall k :: 0 <= k < |s.tickets[ti].tasks| ==>
      s.tickets[ti].tasks[k] < |s.tasks| && s.tasks[s.tickets[ti].tasks[k]].status == Completed
  }

  /** Main: what the task's own ticket becomes, and that no other ticket changes at all. */
  lemma TicketBecomes(s: Desk, id: nat, to: Status)
    requires id < |s.tasks| && !LeftAtOnce(to)
    ensures var after := Transition(s, id, to);
      |after.tickets| == |s.tickets|
      && forall ti :: 0 <= ti < |s.tickets| ==>
           && after.tickets[ti] == s.tickets[ti].(status := after.tickets[ti].status)
           && after.tickets[ti].status ==
                if s.tasks[id].ticket != Some(ti) then s.tickets[ti].status
                else if to == Completed then (if AllDone(after, ti) then Resolved else s.tickets[ti].status)
                else if to in {TestingStaging, ReadyToPublish} then Review
                else if to in {InProgress, ReturnedToDev} && !(s.tickets[ti].status in {Resolved, Closed}) then TicketInProgress
                else s.tickets[ti].status
  {
    RestUnfolds(s, id, to);
    ProjectStays(s.tasks[id], to);
    hide Moved, JoinUat;
    var after := Transition(s, id, to);
    if to == Completed {
      var done := s.tasks[id := Moved(s.tasks[id], to)];
      assert after.tasks == done;
    }
  }

  // ----- the statuses that pass -----

  /** A passing status leaves its entry in the history and hands over to the next. */
  lemma PassesOn(s: Desk, id: nat, to: Status, next: Status)
    requires id < |s.tasks| && LeftAtOnce(to) && !LeftAtOnce(next)
    requires Transition(s, id, to) == Transition(WithTask(s, id, Moved(s.tasks[id], to)), id, next)
    ensures var t, after := s.tasks[id], Transition(s, id, to);
      && id < |after.tasks| && after.tasks[id].status == next
      && after.tasks[id].history == t.history + [Entry(t.status, to), Entry(to, next)]
      && (next != CodeReview ==> after.tasks == s.tasks[id := after.tasks[id]])
      && after.releases == s.releases
  {
    hide Transition, Moved;
    var t := s.tasks[id];
    ProjectStays(t, to);
    var mid := WithTask(s, id, Moved(t, to));
    ComesToRest(mid, id, next);
    OneByOne(t.history, Entry(t.status, to), Entry(to, next));
    PutTwice(s.tasks, id, Moved(t, to), Transition(mid, id, next).tasks[id]);
  }

  lemma PutTwice(tasks: seq<Task>, id: nat, t: Task, u: Task)
    requires id < |tasks|
    ensures tasks[id := t][id := u] == tasks[id := u] && tasks[id := u] + [] == tasks[id := u]
  {
  }

  /** Main: a passed test leads to the client when the project asks for that and the client can see the task, with the task
      on a pending request of the project's organisation; otherwise straight to ready-to-publish, with no request touched. */
  lemma PassGoesToClient(s: Desk, id: nat)
    requires id < |s.tasks|
    ensures var t, after := s.tasks[id], Transition(s, id, QaPassed);
      && after.tasks == s.tasks[id := after.tasks[id]] && after.qas == s.qas
      && if t.project in s.projects && s.projects[t.project].uatRequired && t.clientVisible then
           && after.tasks[id].status == ClientUat
           && var org := s.projects[t.project].org;
              exists u :: Listed(s.uats, after.uats, org, id, u)
         else
           after.tasks[id].status == ReadyToPublish && after.uats == s.uats
  {
    PassUnfolds(s, id, QaPassed);
    ProjectStays(s.tasks[id], QaPassed);
    var mid := WithTask(s, id, Moved(s.tasks[id], QaPassed));
    var next := if ForClient(s, s.tasks[id]) then ClientUat else ReadyToPublish;
    hide Transition, Moved, Listed;
    PassesOn(s, id, QaPassed, next);
    SignOffIsAsked(mid, id, next);
    TestingOpensOne(mid, id, next);
    assert s.qas + [] == s.qas;
  }

  /** A failed test returns the task; publishing awaits the live check; a failed one asks for a rollback. */
  lemma FailGoesBack(s: Desk, id: nat, to: Status)
    requires id < |s.tasks| && to in {QaFailed, PublishedLive, LiveFailed}
    ensures var next := if to == QaFailed then ReturnedToDev
        else if to == PublishedLive then LiveVerification else RollbackRequired;
      var after := Transition(s, id, to);
      && after.tasks == s.tasks[id := after.tasks[id]] && after.tasks[id].status == next
      && after.uats == s.uats && after.qas == s.qas
  {
    PassUnfolds(s, id, to);
    var next := if to == QaFailed then ReturnedToDev
      else if to == PublishedLive then LiveVerification else RollbackRequired;
    var mid := WithTask(s, id, Moved(s.tasks[id], to));
    hide Transition, Moved;
    PassesOn(s, id, to, next);
    SignOffIsAsked(mid, id, next);
    TestingOpensOne(mid, id, next);
    assert s.qas + [] == s.qas;
  }
}
