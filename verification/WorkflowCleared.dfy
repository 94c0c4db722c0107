/** Exactly which releases can still be cleared for publishing, and runs that reach each way of losing one. */
module WorkflowCleared {
  import opened Workflow
  import opened WorkflowInvariant
  import opened WorkflowSteps
  import opened WorkflowReleases
  import opened WorkflowRuns
  import opened WorkflowHeld
  import opened WorkflowSignOffs
  import opened WorkflowPipeline

  // ----- clearing a release that is not doomed -----

  /** The open slots that the team itself can fill. */
  function OpenSlots(rel: Release): set<string> {
    set k | k in rel.approvals && !rel.approvals[k] && k != "client"
  }

  /** A release that asked for approval and is not doomed. */
  predicate Asked(s: Desk, r: nat) {
    r < |s.releases| && s.releases[r].status == ApprovalRequested && !Doomed(s, r)
  }

  lemma ApproveSlotDoes(s: Desk, r: nat, key: string, me: string)
    requires r < |s.releases|
    ensures var slot := s.releases[r].(approvals := s.releases[r].approvals[key := true]);
      ApproveSlot(s, r, key, me).releases ==
        s.releases[r := if AllApproved(slot) && SignedOff(slot) then slot.(status := ReleaseApproved) else slot]
    ensures ApproveSlot(s, r, key, me).uats == s.uats
  {
    hide AllApproved, ApprovalTask;
  }

  /** Filling one slot either clears the release or leaves one open slot less. */
  lemma FillOne(s: Desk, r: nat, key: string)
    requires Asked(s, r) && key in OpenSlots(s.releases[r])
    ensures Offered(s, OnRelease(ApproveRelease(r, key, "u_rahul")))
    ensures var next := ApproveSlot(s, r, key, "u_rahul");
      || Clear(next, r)
      || (Asked(next, r) && OpenSlots(next.releases[r]) == OpenSlots(s.releases[r]) - {key})
  {
    hide AllApproved, HasUat, PendingFor, ApproveSlot;
    ApproveSlotDoes(s, r, key, "u_rahul");
    var slot := s.releases[r].(approvals := s.releases[r].approvals[key := true]);
    if AllApproved(slot) && SignedOff(slot) {
      ApprovedIgnores(slot, slot.(status := ReleaseApproved));
    }
  }

  lemma {:induction false} FillSlots(s: Desk, r: nat) returns (end: Desk)
    requires Good(s) && Asked(s, r)
    ensures Good(end) && Leads(s, end)
    ensures Clear(end, r) || (Asked(end, r) && OpenSlots(end.releases[r]) == {})
    decreases |OpenSlots(s.releases[r])|
  {
    hide Good, Leads, Doomed, Clear;
    if OpenSlots(s.releases[r]) == {} {
      LeadsItself(s);
      end := s;
    } else {
      var key :| key in OpenSlots(s.releases[r]);
      FillOne(s, r, key);
      var a := OnRelease(ApproveRelease(r, key, "u_rahul"));
      var next := ApproveSlot(s, r, key, "u_rahul");
      Press(s, a);
      assert Apply(s, a) == next;
      if Clear(next, r) {
        end := next;
      } else {
        end := FillSlots(next, r);
        LeadsTrans(s, next, end);
      }
    }
  }

  /** A request is either pending or answered on the release. */
  lemma PendingOrAnswered(s: Desk, r: nat)
    requires Good(s) && r < |s.releases| && HasUat(s.uats, r)
    ensures PendingFor(s.uats, r) || Answered(s.releases[r])
  {
    hide Inv;
    var i :| 0 <= i < |s.uats| && s.uats[i].release == Some(r);
    if s.uats[i].status == UatPending {
      assert PendingFor(s.uats, r);
    }
  }

  lemma OnlyClientIsOpen(rel: Release)
    requires OpenSlots(rel) == {} && !AllApproved(rel)
    ensures ClientSlot(rel) == Some(false)
  {
    var k :| k in rel.approvals && !rel.approvals[k];
    assert k !in OpenSlots(rel);
  }

  /** With every other slot filled, what is missing is an answer that is still to come. */
  lemma AnswerIsPending(s: Desk, r: nat) returns (u: nat)
    requires Good(s) && Asked(s, r) && OpenSlots(s.releases[r]) == {} && !Clear(s, r)
    ensures u < |s.uats| && s.uats[u].release == Some(r) && s.uats[u].status == UatPending
  {
    hide Inv, AllApproved, OpenSlots;
    var rel := s.releases[r];
    if !AllApproved(rel) {
      OnlyClientIsOpen(rel);
    }
    if HasUat(s.uats, r) {
      PendingOrAnswered(s, r);
    }
    hide HasUat;
    assert PendingFor(s.uats, r);
    var i :| 0 <= i < |s.uats| && s.uats[i].release == Some(r) && s.uats[i].status == UatPending;
    u := i;
  }

  lemma AnswerClears(s: Desk, r: nat, u: nat)
    requires Inv(s) && r < |s.releases| && OpenSlots(s.releases[r]) == {}
    requires u < |s.uats| && s.uats[u].release == Some(r) && s.uats[u].status == UatPending
    ensures Clear(Decide(s, u, true), r)
  {
    var next := Decide(s, u, true);
    AnsweredReleases(s, next, u, true);
    hide Inv, Decide;
    var was, rel := s.releases[r], next.releases[r];
    forall k | k in rel.approvals ensures rel.approvals[k] {
      assert k !in OpenSlots(was);
    }
  }

  lemma ClearAsked(s: Desk, r: nat) returns (end: Desk)
    requires Good(s) && Asked(s, r)
    ensures Leads(s, end) && Clear(end, r)
  {
    hide Leads, Asked, Clear, OpenSlots, Inv, SignOffs;
    end := FillSlots(s, r);
    if !Clear(end, r) {
      var mid := end;
      var u := AnswerIsPending(mid, r);
      var a := OnTest(DecideUat(u, true));
      Press(mid, a);
      RangeOfAsked(mid, r);
      AnswerClears(mid, r, u);
      end := Apply(mid, a);
      LeadsTrans(s, mid, end);
    }
  }

  lemma RangeOfAsked(s: Desk, r: nat)
    requires Asked(s, r)
    ensures r < |s.releases|
  {
  }

  /** Asking for approval makes the request that a draft still lacks. */
  lemma AskingAsks(s: Desk, r: nat)
    requires Inv(s) && ReleaseOffered(s, RequestApproval(r)) && !Doomed(s, r)
    ensures Asked(AskApproval(s, r), r)
  {
    AskApprovalDoes(s, r);
    var next := AskApproval(s, r);
    hide AskApproval, TasksSound, TicketsAgree, TicketsDone, ReleasesAgree, ReleasesSound, LiveChecksAgree, AllRest;
    if |next.uats| > |s.uats| {
      var u := next.uats[|s.uats|];
      assert u.release == Some(r) && u.status == UatPending;
      assert PendingFor(next.uats, r);
    } else {
      assert next.uats == s.uats;
    }
  }

  lemma ClearDraft(s: Desk, r: nat) returns (end: Desk)
    requires Good(s) && r < |s.releases| && !Doomed(s, r)
    requires s.releases[r].status == DraftRelease && s.releases[r].tasks != []
    ensures Leads(s, end) && Clear(end, r)
  {
    hide Leads, Clear, Doomed, Inv, SignOffs, AskApproval;
    var a := OnRelease(RequestApproval(r));
    Press(s, a);
    AskingAsks(s, r);
    var next := AskApproval(s, r);
    end := ClearAsked(next, r);
    LeadsTrans(s, next, end);
  }

  /** An empty draft first gets a task, through the whole pipeline. */
  lemma ClearEmptyDraft(s: Desk, r: nat) returns (end: Desk)
    requires Good(s) && r < |s.releases| && !Doomed(s, r) && s.releases[r].status == DraftRelease
    ensures Leads(s, end) && Clear(end, r)
  {
    var mid, id := ReadyTaskFromAnywhere(s, s.releases[r].project);
    var a := OnRelease(AddToRelease(id, r));
    Press(mid, a);
    var next := JoinRelease(mid, id, r);
    JoinReleaseWrites(mid, id, r);
    hide Leads, Clear, Inv, SignOffs, JoinRelease, UatsExtend;
    ExtendItself(s.uats);
    AlikeIsDoomedToo(s, next, r);
    end := ClearDraft(next, r);
    LeadsTrans(s, mid, next);
    LeadsTrans(s, next, end);
  }

  /** Main: whatever is not doomed can be cleared. */
  lemma CanBeCleared(s: Desk, r: nat) returns (end: Desk)
    requires Good(s) && r < |s.releases| && !Doomed(s, r)
    ensures Leads(s, end) && Clear(end, r)
  {
    hide Leads, Doomed, SignOffs, Linked, AllRest;
    if !Waiting(s.releases[r]) {
      ReleaseAt(s, r);
      LeadsItself(s);
      end := s;
    } else if s.releases[r].status == ApprovalRequested {
      end := ClearAsked(s, r);
    } else {
      end := ClearEmptyDraft(s, r);
    }
  }

  /** Main: a release is held for ever exactly when it is doomed: the client has asked for changes, or the client's slot
      is open while no request is pending and none will be made. */
  lemma HeldForeverIffDoomed(s: Desk, r: nat)
    requires Reachable(s) && r < |s.releases|
    ensures Doomed(s, r) <==> forall end :: Leads(s, end) ==> !Clear(end, r)
  {
    hide Leads, Doomed, Clear, Publishable;
    if Doomed(s, r) {
      forall end | Leads(s, end) ensures !Clear(end, r) {
        DoomedIsHeldForever(s, end, r);
      }
    } else {
      ReachableGood(s);
      var end := CanBeCleared(s, r);
    }
  }

  // ----- how a release comes to be doomed -----

  /** Adding a task to an approved release empties every slot.  The client's can never be filled again. */
  lemma AddingDoomsApproved(s: Desk, id: nat, r: nat)
    requires Inv(s) && ReleaseOffered(s, AddToRelease(id, r)) && s.releases[r].status == ReleaseApproved
    ensures Doomed(JoinRelease(s, id, r), r) <==> "client" in s.releases[r].approvals
  {
    ReleaseAt(s, r);
    hide TasksSound, TicketsAgree, TicketsDone, ReleasesAgree, ReleasesSound, LiveChecksAgree, AllRest, HasUat, PendingFor;
  }

  /** A new release is doomed exactly when the client is an approver but no sign-off is required. */
  lemma NewReleaseDoomedIff(s: Desk, project: string, includeReady: bool)
    requires Inv(s)
    ensures var p := ProjectOf(s, project);
      Doomed(NewRelease(s, project, includeReady), |s.releases|) <==> "client" in p.approvers && !p.uatRequired
  {
    hide TasksSound, TicketsAgree, TicketsDone, ReleasesAgree, ReleasesSound, LiveChecksAgree, AllRest, Stamped, ReadyTasks;
    var r := |s.releases|;
    assert !PendingFor(s.uats, r);
    assert !HasUat(s.uats, r);
  }

  // ----- runs that reach the failures -----

  lemma Pressed(s: Desk, a: Action) returns (next: Desk)
    requires Reachable(s) && Offered(s, a)
    ensures next == Apply(s, a) && Reachable(next)
  {
    hide Offered, Apply, Leads;
    ReachableGood(s);
    Press(s, a);
    next := Apply(s, a);
    LeadsTrans(EMPTY, s, next);
  }

  lemma ReadyTaskReached(s: Desk, project: string) returns (end: Desk, id: nat)
    requires Reachable(s)
    ensures Reachable(end) && At(s, end, id, project, ReadyToPublish)
  {
    hide Leads, At;
    ReachableGood(s);
    end, id := ReadyTaskFromAnywhere(s, project);
    LeadsTrans(EMPTY, s, end);
  }

  /** A ready task in a project with the given settings, before there is any release. */
  lemma ReadyWithSettings(settings: Project) returns (s: Desk, id: nat)
    ensures Reachable(s) && DevIn(s, id, ReadyToPublish) && s.tasks[id].release.None? && s.tasks[id].project == "p_crm"
    ensures "p_crm" in s.projects && s.projects["p_crm"] == settings
    ensures s.releases == [] && s.uats == []
  {
    LeadsItself(EMPTY);
    assert Reachable(EMPTY);
    hide Reachable;
    var s1 := Pressed(EMPTY, OnRelease(EditProject("p_crm", settings)));
    s, id := ReadyTaskReached(s1, "p_crm");
  }

  /** A draft release of one ready task, in a project with the given settings. */
  lemma ReleaseReached(settings: Project) returns (s: Desk, id: nat, r: nat)
    ensures Reachable(s) && DevIn(s, id, ReadyToPublish) && s.tasks[id].release == Some(r) && r < |s.releases|
    ensures "p_crm" in s.projects && s.projects["p_crm"] == settings
    ensures s.releases[r].status == DraftRelease && s.releases[r].tasks == [id] && s.releases[r].project == "p_crm"
    ensures s.releases[r].uatRequired == settings.uatRequired && s.releases[r].uatStatus.None?
    ensures s.releases[r].approvals == map k | k in settings.approvers :: false
    ensures !HasUat(s.uats, r)
  {
    hide Reachable;
    var s2, task := ReadyWithSettings(settings);
    var s3 := Pressed(s2, OnRelease(CreateRelease("p_crm", false)));
    assert s3.tasks == s2.tasks && s3.uats == [];
    JoinReleaseWrites(s3, task, 0);
    s := Pressed(s3, OnRelease(AddToRelease(task, 0)));
    assert s.tasks[task] == s3.tasks[task].(release := Some(0));
    assert [] + [task] == [task];
    id, r := task, 0;
  }

  lemma LiveHasHistory(s: Desk, id: nat)
    requires Reachable(s) && DevIn(s, id, LiveVerification)
    ensures var h := s.tasks[id].history; h != [] && h[|h| - 1].to == LiveVerification
  {
    HistoryIsTraced(s, id);
  }

  lemma GoesLive(s: Desk, id: nat)
    requires DevIn(s, id, ReadyToPublish)
    ensures DevIn(Transition(s, id, PublishedLive), id, LiveVerification)
  {
    hide Moved;
    var t := s.tasks[id];
    MovedLinks(t, PublishedLive);
    MovedLinks(Moved(t, PublishedLive), LiveVerification);
    var moved := WithTask(s, id, Moved(t, PublishedLive));
    assert Transition(s, id, PublishedLive) == Transition(moved, id, LiveVerification);
  }

  /** Publishing a release of one ready task takes it live. */
  lemma PublishedOne(s: Desk, id: nat, r: nat)
    requires DevIn(s, id, ReadyToPublish) && r < |s.releases| && s.releases[r].tasks == [id]
    ensures var next := PublishNow(s, r);
      && DevIn(next, id, LiveVerification) && r < |next.releases| && next.releases[r].status == Published
      && next.releases[r].tasks == [id]
  {
    hide Transition;
    var rel := s.releases[r];
    var s1 := SetRelease(s, r, rel.(status := Published));
    var s2 := s1.(qas := s1.qas + [Qa(id, Some(r), Live, QaPending)]);
    GoesLive(s2, id);
    var s3 := Transition(s2, id, PublishedLive);
    assert [id][1..] == [];
    assert Each(s2, [id], {ReadyToPublish}, PublishedLive) == Each(s3, [], {ReadyToPublish}, PublishedLive);
  }

  lemma RolledBackOne(s: Desk, id: nat, r: nat)
    requires DevIn(s, id, LiveVerification) && r < |s.releases| && s.releases[r].tasks == [id]
    ensures var next := RollBack(s, r); id < |next.tasks| && next.tasks[id] == RolledBackTask(s.tasks[id])
  {
    assert [id][1..] == [];
    assert RollEach(s.tasks[id := RolledBackTask(s.tasks[id])], []) == s.tasks[id := RolledBackTask(s.tasks[id])];
  }

  /** A published release whose one task awaits live verification. */
  lemma LiveReached() returns (s: Desk, id: nat, r: nat)
    ensures Reachable(s) && DevIn(s, id, LiveVerification) && r < |s.releases|
    ensures s.releases[r].status == Published && s.releases[r].tasks == [id]
  {
    var s1, task, rel := ReleaseReached(Project("o_acme", false, [], None, None, None));
    assert Publishable(s1, s1.releases[rel]);
    hide Reachable, PublishNow, Publishable, HasUat;
    s := Pressed(s1, OnRelease(ReleaseAction.Publish(rel)));
    PublishedOne(s1, task, rel);
    id, r := task, rel;
  }

  /** A run after which a rolled back task has a history with a gap: it was live, and the entry says otherwise. */
  lemma GapIsReached() returns (s: Desk, id: nat)
    ensures Reachable(s) && id < |s.tasks| && s.tasks[id].kind == Dev
    ensures var h := s.tasks[id].history; |h| >= 2 && h[|h| - 1].from != h[|h| - 2].to
  {
    hide Reachable, RollBack;
    var s1, task, r := LiveReached();
    s := Pressed(s1, OnRelease(Rollback(r)));
    RolledBackOne(s1, task, r);
    LiveHasHistory(s1, task);
    id := task;
  }

  /** A run after which the client has sent a release back for ever. */
  lemma SentBackIsReached() returns (s: Desk, r: nat)
    ensures Reachable(s) && r < |s.releases| && s.releases[r].uatStatus == Some(UatChanges) && Doomed(s, r)
  {
    var s1, task, rel := ReleaseReached(Project("o_acme", true, ["client"], None, None, None));
    hide Reachable, AskApproval, Each, HasUat;
    AskApprovalDoes(s1, rel);
    var s2 := Pressed(s1, OnRelease(RequestApproval(rel)));
    var u := |s1.uats|;
    s := Pressed(s2, OnTest(DecideUat(u, false)));
    r := rel;
  }

  /** A release whose client has signed off, in a project that asks only the client. */
  lemma SignedOffReached() returns (s: Desk, r: nat)
    ensures Reachable(s) && r < |s.releases| && s.releases[r].status == ReleaseApproved
    ensures s.releases[r].uatStatus == Some(UatApproved) && "client" in s.releases[r].approvals
    ensures s.releases[r].project == "p_crm"
  {
    var s1, task, rel := ReleaseReached(Project("o_acme", true, ["client"], None, None, None));
    hide Reachable, AskApproval, Each, HasUat;
    AskApprovalDoes(s1, rel);
    var s2 := Pressed(s1, OnRelease(RequestApproval(rel)));
    var u := |s1.uats|;
    s := Pressed(s2, OnTest(DecideUat(u, true)));
    r := rel;
  }

  /** A run after which an approved release has lost the client's slot for ever: a second task was added. */
  lemma LostSlotIsReached() returns (s: Desk, r: nat)
    ensures Reachable(s) && Doomed(s, r) && s.releases[r].uatStatus == Some(UatApproved)
  {
    var s1, rel := SignedOffReached();
    hide Reachable, Doomed, JoinRelease;
    var s2, task := ReadyTaskReached(s1, "p_crm");
    ReachableInv(s2);
    s := Pressed(s2, OnRelease(AddToRelease(task, rel)));
    hide Inv;
    AddingDoomsApproved(s2, task, rel);
    JoinKeepsAnswer(s2, task, rel);
    r := rel;
  }

  lemma JoinKeepsAnswer(s: Desk, id: nat, r: nat)
    requires id < |s.tasks| && r < |s.releases|
    ensures var after := JoinRelease(s, id, r);
      r < |after.releases| && after.releases[r].uatStatus == s.releases[r].uatStatus
  {
  }
}
