/** Where each result, decision and release button leaves the tasks, the requests and the release. */
module WorkflowOutcomes {
  import opened Workflow
  import opened WorkflowInvariant
  import opened WorkflowSteps
  import opened WorkflowEngine

  // ----- moving the tasks of a list -----

  /** Going to `to` ends in `next` and makes no row anywhere. */
  predicate EndsIn(to: Status, next: Status) {
    || (to == next && !LeftAtOnce(to) && !(to in {CodeReview, TestingStaging, ClientUat}))
    || (to == PublishedLive && next == LiveVerification)
    || (to == LiveFailed && next == RollbackRequired)
  }

  /** Exactly the listed tasks in one of the statuses have moved; everything else about tasks is as it was. */
  predicate MovedFrom(before: seq<Task>, after: seq<Task>, ids: seq<nat>, when: set<Status>, next: Status) {
    && |after| == |before|
    && forall j :: 0 <= j < |before| ==>
         if j in ids && before[j].status in when then after[j].status == next && after[j].ticket == before[j].ticket
         else after[j] == before[j]
  }

  lemma OneMove(s: Desk, id: nat, to: Status, next: Status)
    requires id < |s.tasks| && EndsIn(to, next)
    ensures var after := Transition(s, id, to);
      && after.tasks == s.tasks[id := after.tasks[id]] && after.tasks[id].status == next
      && after.tasks[id].ticket == s.tasks[id].ticket
      && after.uats == s.uats && after.qas == s.qas && after.projects == s.projects
  {
    hide Transition;
    TicketStays(s, id, to);
    if LeftAtOnce(to) {
      FailGoesBack(s, id, to);
    } else {
      ComesToRest(s, id, to);
      SignOffIsAsked(s, id, to);
      TestingOpensOne(s, id, to);
      var after := Transition(s, id, to);
      assert s.qas + [] == s.qas;
      assert s.tasks[id := after.tasks[id]] + [] == s.tasks[id := after.tasks[id]];
    }
  }

  lemma {:induction false} TicketStays(s: Desk, id: nat, to: Status)
    requires id < |s.tasks|
    ensures id < |Transition(s, id, to).tasks| && Transition(s, id, to).tasks[id].ticket == s.tasks[id].ticket
    ensures Transition(s, id, to).projects == s.projects
    decreases if LeftAtOnce(to) then 1 else 0
  {
    hide Transition, Moved, Entered;
    var t := s.tasks[id];
    if LeftAtOnce(to) {
      PassUnfolds(s, id, to);
      ProjectStays(t, to);
      var next := if to == QaPassed then (if ForClient(s, t) then ClientUat else ReadyToPublish)
        else if to == QaFailed then ReturnedToDev
        else if to == PublishedLive then LiveVerification else RollbackRequired;
      TicketStays(WithTask(s, id, Moved(t, to)), id, next);
    } else {
      ComesToRest(s, id, to);
      EnteredTicket(t, to, Transition(s, id, to).tasks[id]);
    }
  }

  lemma EnteredTicket(t: Task, to: Status, u: Task)
    requires Entered(t, to, u)
    ensures u.ticket == t.ticket && u.status == to
  {
  }

  lemma {:induction false} EachMoves(s: Desk, ids: seq<nat>, when: set<Status>, to: Status, next: Status)
    requires EndsIn(to, next) && next !in when
    ensures var after := Each(s, ids, when, to);
      && MovedFrom(s.tasks, after.tasks, ids, when, next)
      && after.uats == s.uats && after.qas == s.qas && after.projects == s.projects
    decreases |ids|
  {
    hide Transition, EndsIn;
    if ids != [] {
      var id := ids[0];
      var moved := id < |s.tasks| && s.tasks[id].status in when;
      var s1 := if moved then Transition(s, id, to) else s;
      if moved {
        OneMove(s, id, to, next);
      }
      EachMoves(s1, ids[1..], when, to, next);
      MovedOneMore(s.tasks, s1.tasks, Each(s1, ids[1..], when, to).tasks, ids, when, next);
    }
  }

  lemma MovedOneMore(before: seq<Task>, mid: seq<Task>, after: seq<Task>, ids: seq<nat>, when: set<Status>, next: Status)
    requires ids != [] && next !in when && |mid| == |before|
    requires MovedFrom(mid, after, ids[1..], when, next)
    requires forall j :: 0 <= j < |before| && j != ids[0] ==> mid[j] == before[j]
    requires ids[0] < |before| ==>
      if before[ids[0]].status in when then mid[ids[0]].status == next && mid[ids[0]].ticket == before[ids[0]].ticket
      else mid[ids[0]] == before[ids[0]]
    ensures MovedFrom(before, after, ids, when, next)
  {
    forall j | 0 <= j < |before|
      ensures if j in ids && before[j].status in when then after[j].status == next && after[j].ticket == before[j].ticket
        else after[j] == before[j]
    {
      assert j in ids <==> j == ids[0] || j in ids[1..];
    }
  }

  // ----- tickets of completed tasks -----

  /** What the ticket lists are its own tasks. */
  predicate ListsOwn(s: Desk, ti: nat) {
    ti < |s.tickets| && forall k :: 0 <= k < |s.tickets[ti].tasks| ==>
      s.tickets[ti].tasks[k] < |s.tasks| && s.tasks[s.tickets[ti].tasks[k]].ticket == Some(ti)
  }

  /** One of the listed tasks is a live one of the ticket. */
  predicate Touches(tasks: seq<Task>, ids: seq<nat>, ti: nat) {
    exists k :: 0 <= k < |ids| && ids[k] < |tasks| && tasks[ids[k]].status == LiveVerification
      && tasks[ids[k]].ticket == Some(ti)
  }

  lemma {:induction false} EachKeepsResolved(s: Desk, ids: seq<nat>, ti: nat)
    requires ti < |s.tickets|
    ensures var after := Each(s, ids, {LiveVerification}, Completed);
      && |after.tickets| == |s.tickets| && after.tickets[ti].tasks == s.tickets[ti].tasks
      && (s.tickets[ti].status == Resolved ==> after.tickets[ti].status == Resolved)
    decreases |ids|
  {
    hide Transition, AllDone;
    if ids != [] {
      var id := ids[0];
      if id < |s.tasks| && s.tasks[id].status == LiveVerification {
        TicketBecomes(s, id, Completed);
        EachKeepsResolved(Transition(s, id, Completed), ids[1..], ti);
      } else {
        EachKeepsResolved(s, ids[1..], ti);
      }
    }
  }

  /** When none of the listed tasks is the ticket's, it has as many completed tasks after as before. */
  lemma UntouchedIsAsDone(s: Desk, ids: seq<nat>, ti: nat)
    requires ListsOwn(s, ti) && !Touches(s.tasks, ids, ti)
    ensures ti < |Each(s, ids, {LiveVerification}, Completed).tickets|
    ensures AllDone(Each(s, ids, {LiveVerification}, Completed), ti) ==> AllDone(s, ti)
  {
    hide Each;
    EachKeepsResolved(s, ids, ti);
    EachMoves(s, ids, {LiveVerification}, Completed, Completed);
    var after := Each(s, ids, {LiveVerification}, Completed);
    if AllDone(after, ti) {
      forall k | 0 <= k < |s.tickets[ti].tasks| ensures s.tasks[s.tickets[ti].tasks[k]].status == Completed {
        var id := s.tickets[ti].tasks[k];
        assert after.tasks[after.tickets[ti].tasks[k]].status == Completed;
      }
    }
  }

  lemma LaterTouches(before: seq<Task>, mid: seq<Task>, ids: seq<nat>, ti: nat, k: nat)
    requires k < |ids| && ids[k] < |before| && before[ids[k]].status == LiveVerification
    requires before[ids[k]].ticket == Some(ti) && ids[k] != ids[0]
    requires |mid| == |before| && mid[ids[k]] == before[ids[k]]
    ensures Touches(mid, ids[1..], ti)
  {
    assert ids[1..][k - 1] == ids[k];
  }

  /** Completing the live tasks of a list resolves each ticket of theirs that has only completed tasks then. */
  lemma {:induction false} EachResolves(s: Desk, ids: seq<nat>, ti: nat)
    requires ListsOwn(s, ti) && Touches(s.tasks, ids, ti)
    ensures var after := Each(s, ids, {LiveVerification}, Completed);
      ti < |after.tickets| && (AllDone(after, ti) ==> after.tickets[ti].status == Resolved)
    decreases |ids|
  {
    hide Transition, AllDone, MovedFrom;
    var id, rest := ids[0], ids[1..];
    var moved := id < |s.tasks| && s.tasks[id].status == LiveVerification;
    var s1 := if moved then Transition(s, id, Completed) else s;
    if moved {
      OneMove(s, id, Completed, Completed);
      TicketBecomes(s, id, Completed);
    }
    assert ListsOwn(s1, ti);
    EachKeepsResolved(s1, rest, ti);
    if Touches(s1.tasks, rest, ti) {
      EachResolves(s1, rest, ti);
    } else {
      UntouchedIsAsDone(s1, rest, ti);
      var k :| 0 <= k < |ids| && ids[k] < |s.tasks| && s.tasks[ids[k]].status == LiveVerification
        && s.tasks[ids[k]].ticket == Some(ti);
      if ids[k] != id {
        LaterTouches(s.tasks, s1.tasks, ids, ti, k);
      }
    }
  }

  // ----- results -----

  /** Where a test result leaves the task, the assignment and the client's requests. */
  ghost predicate ResultShows(s: Desk, after: Desk, q: nat, pass: bool)
    requires StagingTestOffered(s, q)
  {
    var id := s.qas[q].task;
    var t := s.tasks[id];
    && after.qas == s.qas[q := s.qas[q].(status := if pass then QaOk else QaBad)]
    && |after.tasks| == |s.tasks| && after.tasks == s.tasks[id := after.tasks[id]]
    && if pass && t.project in s.projects && s.projects[t.project].uatRequired && t.clientVisible then
         && after.tasks[id].status == ClientUat
         && var org := s.projects[t.project].org;
            exists u :: Listed(s.uats, after.uats, org, id, u)
       else
         after.uats == s.uats && after.tasks[id].status == if pass then ReadyToPublish else ReturnedToDev
  }

  /** Main: the button shows exactly that. */
  lemma ResultMeans(s: Desk, q: nat, pass: bool)
    requires TestOffered(s, TestResult(q, pass))
    ensures ResultShows(s, ApplyTest(s, TestResult(q, pass)), q, pass)
  {
    hide Transition, Listed;
    var id := s.qas[q].task;
    var s1 := SetQa(s, q, if pass then QaOk else QaBad);
    if pass {
      PassGoesToClient(s1, id);
    } else {
      FailGoesBack(s1, id, QaFailed);
    }
  }

  /** A live result marks the release, completes its live tasks or sends all of them to rollback, and touches no
      other task. */
  ghost predicate LiveResultShows(s: Desk, after: Desk, q: nat, pass: bool)
    requires LiveTestOffered(s, q)
  {
    var r := s.qas[q].release.value;
    && after.qas == s.qas[q := s.qas[q].(status := if pass then QaOk else QaBad)]
    && after.releases == s.releases[r := s.releases[r].(status := if pass then Verified else Failed)]
    && after.uats == s.uats
    && MovedFrom(s.tasks, after.tasks, s.releases[r].tasks, {LiveVerification},
                 if pass then Completed else RollbackRequired)
  }

  /** Main: the button shows exactly that. */
  lemma LiveResultMeans(s: Desk, q: nat, pass: bool)
    requires TestOffered(s, VerifyLive(q, pass))
    ensures LiveResultShows(s, ApplyTest(s, VerifyLive(q, pass)), q, pass)
  {
    hide Each, MovedFrom;
    var r := s.qas[q].release.value;
    var s1 := SetRelease(SetQa(s, q, if pass then QaOk else QaBad), r,
      s.releases[r].(status := if pass then Verified else Failed));
    EachMoves(s1, s.releases[r].tasks, {LiveVerification}, if pass then Completed else LiveFailed,
              if pass then Completed else RollbackRequired);
  }

  lemma TicketListsOwn(s: Desk, ti: nat)
    requires Inv(s) && ti < |s.tickets|
    ensures ListsOwn(s, ti)
  {
    var ids := s.tickets[ti].tasks;
    forall k | 0 <= k < |ids| ensures ids[k] < |s.tasks| && s.tasks[ids[k]].ticket == Some(ti) {
      assert ids[k] in s.tickets[ti].tasks;
    }
  }

  /** Main: passing the live check resolves every ticket with a task in it whose tasks are all completed then. */
  lemma LivePassResolves(s: Desk, q: nat, ti: nat)
    requires Inv(s) && TestOffered(s, VerifyLive(q, true)) && ti < |s.tickets|
    requires Touches(s.tasks, s.releases[s.qas[q].release.value].tasks, ti)
    ensures var after := ApplyTest(s, VerifyLive(q, true));
      ti < |after.tickets| && (AllDone(after, ti) ==> after.tickets[ti].status == Resolved)
  {
    TicketListsOwn(s, ti);
    hide Inv, Each, AllDone, Touches;
    var r := s.qas[q].release.value;
    var s1 := SetRelease(SetQa(s, q, QaOk), r, s.releases[r].(status := Verified));
    assert ListsOwn(s1, ti);
    EachResolves(s1, s.releases[r].tasks, ti);
  }

  // ----- the client's decision -----

  /** What the decision makes of the release. */
  predicate Decided(rel: Release, approve: bool, after: Release) {
    if approve then
      && after.uatStatus == Some(UatApproved)
      && after.approvals.Keys == rel.approvals.Keys
      && (forall k :: k in rel.approvals ==> after.approvals[k] == (k == "client" || rel.approvals[k]))
      && after.status == (if forall k :: k in after.approvals ==> after.approvals[k] then ReleaseApproved else rel.status)
      && after.tasks == rel.tasks && after.uatRequired == rel.uatRequired && after.project == rel.project
    else
      after == rel.(uatStatus := Some(UatChanges), status := DraftRelease)
  }

  lemma AfterUatIsDecided(rel: Release, approve: bool)
    ensures Decided(rel, approve, ReleaseAfterUat(rel, approve))
  {
  }

  /** An approval makes the listed tasks that wait for the client ready to publish and fills the client's slot; a
      request for changes returns them, and those already ready, and holds the release. */
  ghost predicate DecisionShows(s: Desk, after: Desk, u: nat, approve: bool)
    requires u < |s.uats|
  {
    var uat := s.uats[u];
    && after.uats == s.uats[u := uat.(status := if approve then UatApproved else UatChanges)]
    && MovedFrom(s.tasks, after.tasks, uat.tasks,
                 if approve then {ClientUat} else {ClientUat, ReadyToPublish, QaPassed},
                 if approve then ReadyToPublish else ReturnedToDev)
    && if uat.release.None? then after.releases == s.releases
       else
         && uat.release.value < |s.releases| == |after.releases|
         && after.releases == s.releases[uat.release.value := after.releases[uat.release.value]]
         && Decided(s.releases[uat.release.value], approve, after.releases[uat.release.value])
  }

  /** Main: the button shows exactly that. */
  lemma DecisionMeans(s: Desk, u: nat, approve: bool)
    requires Inv(s) && TestOffered(s, DecideUat(u, approve))
    ensures DecisionShows(s, ApplyTest(s, DecideUat(u, approve)), u, approve)
  {
    var uat := s.uats[u];
    assert uat.release.Some? ==> uat.release.value < |s.releases|;
    hide Each, MovedFrom, Inv, Decided, ReleaseAfterUat;
    var s1 := s.(uats := s.uats[u := uat.(status := if approve then UatApproved else UatChanges)]);
    if approve {
      EachMoves(s1, uat.tasks, {ClientUat}, ReadyToPublish, ReadyToPublish);
    } else {
      EachMoves(s1, uat.tasks, {ClientUat, ReadyToPublish, QaPassed}, ReturnedToDev, ReturnedToDev);
    }
    if uat.release.Some? {
      AfterUatIsDecided(s.releases[uat.release.value], approve);
    }
  }

  // ----- the review -----

  /** An unfinished review task of task `id`. */
  predicate Reviews(t: Task, id: nat) {
    t.category == "Review" && t.linked == Some(id) && t.status != Completed
  }

  lemma {:induction false} ReviewTaskIsNewest(tasks: seq<Task>, id: nat)
    ensures var r := ReviewTask(tasks, id);
      && (r.Some? ==> r.value < |tasks| && Reviews(tasks[r.value], id))
      && forall j :: 0 <= j < |tasks| && (r.Some? ==> r.value < j) ==> !Reviews(tasks[j], id)
  {
    if tasks != [] {
      var n := |tasks| - 1;
      ReviewTaskIsNewest(tasks[..n], id);
      forall j | 0 <= j < n ensures tasks[..n][j] == tasks[j] {
      }
    }
  }

  /** Every required check passes, where the two late ones are waited for. */
  predicate PassesChecks(s: Desk, t: Task) {
    || t.overridden
    || forall k :: 0 <= k < |s.requiredChecks| ==>
         var c := s.requiredChecks[k];
         c == "api" || c == "security" || (t.checks.Some? && c in t.checks.value && t.checks.value[c] == Passing)
  }

  /** Approving a review finishes its newest review task and lets the task go on exactly when its required checks
      pass; the two checks that run late are waited for, the others are not. */
  ghost predicate ApprovalShows(s: Desk, after: Desk, id: nat)
    requires id < |s.tasks|
  {
    && |after.tasks| == |s.tasks|
    && after.tasks[id].reviewApproved && after.tasks[id].pr == Some(PrApproved)
    && after.tasks[id].status == (if PassesChecks(s, s.tasks[id]) then ReadyForQa else CodeReview)
    && ReviewFinished(s, after.tasks, id)
  }

  /** Main: the button shows exactly that. */
  lemma ApprovalMeans(s: Desk, id: nat)
    requires Inv(s) && TaskOffered(s, ApproveReview(id))
    ensures ApprovalShows(s, ApplyTask(s, ApproveReview(id)), id)
  {
    TaskAt(s, id);
    assert s.tasks[id].category == "Development";
    var t := s.tasks[id].(pr := Some(PrApproved), reviewApproved := true);
    var s1 := WithTask(s, id, t);
    ReviewTaskIsNewest(s1.tasks, id);
    var found := ReviewTask(s1.tasks, id);
    var s2 := Finish(s1, found);
    NewestIsFinished(s, t, id, found);
    hide Inv, Transition, ReviewTask, ChecksOk, Reviews, PassesChecks, ReviewFinished, LateChecks;
    ChecksAreWaitedFor(s, id);
    ApprovalEnds(s, s2, id);
    FinishedIgnores(s, s2.tasks, id, ApplyTask(s, ApproveReview(id)).tasks[id]);
  }

  /** Among the old rows other than the task itself, its newest review task is completed and nothing else changed. */
  predicate ReviewFinished(s: Desk, rows: seq<Task>, id: nat) {
    && |rows| == |s.tasks|
    && forall j :: 0 <= j < |s.tasks| && j != id ==>
         rows[j] ==
           if Reviews(s.tasks[j], id) && (forall i :: j < i < |s.tasks| ==> !Reviews(s.tasks[i], id))
           then s.tasks[j].(status := Completed) else s.tasks[j]
  }

  lemma FinishedIgnores(s: Desk, rows: seq<Task>, id: nat, t: Task)
    requires ReviewFinished(s, rows, id) && id < |rows|
    ensures ReviewFinished(s, rows[id := t], id)
  {
    hide Reviews;
  }

  /** The second half of an approval changes the task alone. */
  lemma ApprovalEnds(s: Desk, s2: Desk, id: nat)
    requires TaskOffered(s, ApproveReview(id))
    requires var s1 := WithTask(s, id, s.tasks[id].(pr := Some(PrApproved), reviewApproved := true));
      s2 == Finish(s1, ReviewTask(s1.tasks, id))
    requires |s2.tasks| == |s.tasks| && s2.tasks[id] == s.tasks[id].(pr := Some(PrApproved), reviewApproved := true)
    ensures var t, after := s.tasks[id], Approve(s, id);
      && |after.tasks| == |s.tasks| && after.tasks == s2.tasks[id := after.tasks[id]]
      && after.tasks[id].reviewApproved && after.tasks[id].pr == Some(PrApproved)
      && after.tasks[id].status ==
           if ChecksOk(s, t) || ChecksOk(s, t.(checks := LateChecks(t))) then ReadyForQa else CodeReview
  {
    hide Approve, Transition, ReviewTask, ChecksOk, LateChecks;
    var t, u := s.tasks[id], s2.tasks[id];
    SameLate(t, u);
    var s3 := WithTask(s2, id, u.(checks := LateChecks(u)));
    ApprovalIs(s, s2, s3, id);
    SameChecks(s, s3, t.(checks := LateChecks(t)), s3.tasks[id]);
    ReadyEnds(s2, id);
    ReadyEnds(s3, id);
    PutTwice(s2.tasks, id, s3.tasks[id], Approve(s, id).tasks[id]);
  }

  lemma ApprovalIs(s: Desk, s2: Desk, s3: Desk, id: nat)
    requires id < |s.tasks|
    requires var s1 := WithTask(s, id, s.tasks[id].(pr := Some(PrApproved), reviewApproved := true));
      s2 == Finish(s1, ReviewTask(s1.tasks, id))
    requires id < |s2.tasks|
    requires s3 == WithTask(s2, id, s2.tasks[id].(checks := LateChecks(s2.tasks[id])))
    ensures Approve(s, id) ==
      if ChecksOk(s, s.tasks[id]) then Transition(s2, id, ReadyForQa)
      else if ChecksOk(s3, s3.tasks[id]) then Transition(s3, id, ReadyForQa) else s3
  {
    hide Transition, ReviewTask, ChecksOk;
  }

  /** The checks after the two late ones have passed. */
  function LateChecks(t: Task): Option<map<string, Check>> {
    Some((if t.checks.Some? then t.checks.value else map[])["api" := Passing]["security" := Passing])
  }

  lemma SameLate(t: Task, u: Task)
    requires t.checks == u.checks
    ensures LateChecks(t) == LateChecks(u)
  {
  }

  lemma SameChecks(s: Desk, s2: Desk, t: Task, u: Task)
    requires s.requiredChecks == s2.requiredChecks && t.checks == u.checks && t.overridden == u.overridden
    ensures ChecksOk(s, t) == ChecksOk(s2, u)
  {
  }

  lemma ReadyEnds(s: Desk, id: nat)
    requires id < |s.tasks|
    ensures var after := Transition(s, id, ReadyForQa);
      && after.tasks == s.tasks[id := after.tasks[id]]
      && after.tasks[id].status == ReadyForQa && after.tasks[id].pr == Some(PrApproved)
      && after.tasks[id].reviewApproved == s.tasks[id].reviewApproved
  {
    hide Transition;
    ComesToRest(s, id, ReadyForQa);
    var after := Transition(s, id, ReadyForQa);
    assert s.tasks[id := after.tasks[id]] + [] == s.tasks[id := after.tasks[id]];
  }

  /** The rows other than the task's own after its review task is finished. */
  lemma NewestIsFinished(s: Desk, t: Task, id: nat, found: Option<nat>)
    requires id < |s.tasks| && t.category == "Development" && s.tasks[id].category == "Development"
    requires var rows := s.tasks[id := t];
      && (found.Some? ==> found.value < |rows| && Reviews(rows[found.value], id))
      && forall j :: 0 <= j < |rows| && (found.Some? ==> found.value < j) ==> !Reviews(rows[j], id)
    ensures var s2 := Finish(WithTask(s, id, t), found);
      && |s2.tasks| == |s.tasks| && s2.tasks[id] == t && ReviewFinished(s, s2.tasks, id)
  {
    var rows := s.tasks[id := t];
    assert !Reviews(rows[id], id) && !Reviews(s.tasks[id], id);
    assert forall j :: 0 <= j < |rows| ==> (Reviews(rows[j], id) <==> Reviews(s.tasks[j], id));
  }

  lemma ChecksAreWaitedFor(s: Desk, id: nat)
    requires id < |s.tasks|
    ensures var t := s.tasks[id];
      var late := t.(checks := LateChecks(t));
      && (ChecksOk(s, t) || ChecksOk(s, late) <==> PassesChecks(s, t))
  {
  }
}
