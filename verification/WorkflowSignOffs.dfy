/** Sign-off requests and their answers agree in every reachable state; and how runs are put together. */
module WorkflowSignOffs {
  import opened Workflow
  import opened WorkflowInvariant
  import opened WorkflowSteps
  import opened WorkflowReleases
  import opened WorkflowRuns
  import opened WorkflowHeld

  // ----- requests and answers agree -----

  predicate Answered(rel: Release) {
    rel.uatStatus in {Some(UatApproved), Some(UatChanges)}
  }

  /** Every answer is recorded on its release; a release that asked for approval and needs the client has a request. */
  predicate SignOffs(uats: seq<Uat>, releases: seq<Release>) {
    && (forall i :: 0 <= i < |uats| && uats[i].release.Some? && uats[i].status != UatPending ==>
          uats[i].release.value < |releases| && Answered(releases[uats[i].release.value]))
    && (forall r :: 0 <= r < |releases| && releases[r].status == ApprovalRequested && releases[r].uatRequired ==>
          HasUat(uats, r))
  }

  /** Releases keep what the client answered, and no release newly asks. */
  predicate NoneAsks(before: seq<Release>, after: seq<Release>) {
    && |before| <= |after|
    && (forall r :: 0 <= r < |before| ==>
          && after[r].uatStatus == before[r].uatStatus && after[r].uatRequired == before[r].uatRequired
          && (after[r].status == ApprovalRequested ==>
                before[r].status == ApprovalRequested || !before[r].uatRequired || before[r].uatStatus.Some?))
    && (forall r :: |before| <= r < |after| ==> after[r].status == DraftRelease)
  }

  lemma QuietSignOffs(s: Desk, next: Desk)
    requires Inv(s) && SignOffs(s.uats, s.releases)
    requires UatsExtend(s.uats, next.uats) && NoneAsks(s.releases, next.releases)
    ensures SignOffs(next.uats, next.releases)
  {
    hide TasksSound, TicketsAgree, TicketsDone, ReleasesAgree, ReleasesSound, LiveChecksAgree, AllRest, HasUat;
    forall i | 0 <= i < |next.uats| && next.uats[i].release.Some? && next.uats[i].status != UatPending
      ensures next.uats[i].release.value < |next.releases|
      ensures Answered(next.releases[next.uats[i].release.value])
    {
      assert i < |s.uats|;
      assert s.uats[i].release == next.uats[i].release;
    }
    forall r | 0 <= r < |next.releases| && next.releases[r].status == ApprovalRequested && next.releases[r].uatRequired
      ensures HasUat(next.uats, r)
    {
      assert r < |s.releases|;
      assert HasUat(s.uats, r);
      ExtendSame(s.uats, next.uats, r);
    }
  }

  lemma SameAsks(releases: seq<Release>)
    ensures NoneAsks(releases, releases)
  {
  }

  lemma LiveKeepsSignOffs(s: Desk, q: nat, pass: bool)
    requires Inv(s) && LiveTestOffered(s, q) && SignOffs(s.uats, s.releases)
    ensures SignOffs(RecordLive(s, q, pass).uats, RecordLive(s, q, pass).releases)
  {
    hide Inv, SignOffs, Each, UatsExtend;
    var live := s.qas[q].release.value;
    var s1 := SetRelease(SetQa(s, q, if pass then QaOk else QaBad), live,
      s.releases[live].(status := if pass then Verified else Failed));
    EachExtends(s1, s.releases[live].tasks, {LiveVerification}, if pass then Completed else LiveFailed);
    assert RecordLive(s, q, pass).releases == s1.releases;
    QuietSignOffs(s, RecordLive(s, q, pass));
  }

  lemma TestKeepsSignOffs(s: Desk, a: TestAction)
    requires Inv(s) && TestOffered(s, a) && SignOffs(s.uats, s.releases)
    ensures SignOffs(ApplyTest(s, a).uats, ApplyTest(s, a).releases)
  {
    hide Inv, SignOffs, Transition, NoneAsks, UatsExtend, RecordLive, Decide;
    var next := ApplyTest(s, a);
    SameAsks(s.releases);
    ExtendItself(s.uats);
    match a
    case DecideUat(u, approve) => DecideKeepsSignOffs(s, u, approve);
    case VerifyLive(q, pass) => LiveKeepsSignOffs(s, q, pass);
    case TestResult(q, pass) =>
      TransitionExtends(SetQa(s, q, if pass then QaOk else QaBad), s.qas[q].task, if pass then QaPassed else QaFailed);
      QuietSignOffs(s, next);
    case _ => QuietSignOffs(s, next);
  }

  /** A decision answers its request and records the answer on the release. */
  lemma DecideKeepsSignOffs(s: Desk, u: nat, approve: bool)
    requires Inv(s) && TestOffered(s, DecideUat(u, approve)) && SignOffs(s.uats, s.releases)
    ensures SignOffs(Decide(s, u, approve).uats, Decide(s, u, approve).releases)
  {
    hide Each;
    var uat := s.uats[u];
    var status := if approve then UatApproved else UatChanges;
    var s1 := s.(uats := s.uats[u := uat.(status := status)]);
    var next := Decide(s, u, approve);
    EachExtends(s1, uat.tasks, {ClientUat}, ReadyToPublish);
    EachExtends(s1, uat.tasks, {ClientUat, ReadyToPublish, QaPassed}, ReturnedToDev);
    if uat.release.Some? {
      PendingAt(s, u);
    }
    hide TasksSound, TicketsAgree, TicketsDone, ReleasesAgree, ReleasesSound, LiveChecksAgree, AllRest, HasUat, Decide;
    AnsweredReleases(s, next, u, approve);
    AnsweredSignOffs(s, next, u, status);
  }

  /** What a decision does to the releases: its own gets the answer, the others stay. */
  lemma AnsweredReleases(s: Desk, next: Desk, u: nat, approve: bool)
    requires Inv(s) && TestOffered(s, DecideUat(u, approve)) && next == Decide(s, u, approve)
    ensures |next.releases| == |s.releases|
    ensures forall r :: 0 <= r < |s.releases| && s.uats[u].release != Some(r) ==> next.releases[r] == s.releases[r]
    ensures forall r :: 0 <= r < |s.releases| && s.uats[u].release == Some(r) ==>
      next.releases[r] == ReleaseAfterUat(s.releases[r], approve)
  {
    hide Each, ReleaseAfterUat, Inv;
  }

  lemma AnsweredSignOffs(s: Desk, next: Desk, u: nat, status: UatStatus)
    requires Inv(s) && SignOffs(s.uats, s.releases) && u < |s.uats| && status != UatPending
    requires UatsExtend(s.uats[u := s.uats[u].(status := status)], next.uats)
    requires |next.releases| == |s.releases|
    requires forall r :: 0 <= r < |s.releases| && s.uats[u].release != Some(r) ==> next.releases[r] == s.releases[r]
    requires forall r :: 0 <= r < |s.releases| && s.uats[u].release == Some(r) ==>
      Answered(next.releases[r])
    ensures SignOffs(next.uats, next.releases)
  {
    hide TasksSound, TicketsAgree, TicketsDone, ReleasesAgree, ReleasesSound, LiveChecksAgree, AllRest, HasUat;
    var mid := s.uats[u := s.uats[u].(status := status)];
    forall i | 0 <= i < |next.uats| && next.uats[i].release.Some? && next.uats[i].status != UatPending
      ensures next.uats[i].release.value < |next.releases|
      ensures Answered(next.releases[next.uats[i].release.value])
    {
      assert i < |mid|;
      assert next.uats[i].release == mid[i].release == s.uats[i].release;
      if s.uats[i].release != s.uats[u].release {
        assert mid[i] == s.uats[i];
      }
    }
    forall r | 0 <= r < |next.releases| && next.releases[r].status == ApprovalRequested && next.releases[r].uatRequired
      ensures HasUat(next.uats, r)
    {
      ExtendSame(mid, next.uats, r);
      if s.uats[u].release == Some(r) {
        assert mid[u].release == Some(r);
        HasUatAt(mid, u, r);
      } else {
        AnsweringSame(s.uats, u, status, r);
      }
    }
  }

  lemma HasUatAt(uats: seq<Uat>, i: nat, r: nat)
    requires i < |uats| && uats[i].release == Some(r)
    ensures HasUat(uats, r)
  {
  }

  lemma AskKeepsSignOffs(s: Desk, r: nat)
    requires Inv(s) && ReleaseOffered(s, RequestApproval(r)) && SignOffs(s.uats, s.releases)
    ensures SignOffs(AskApproval(s, r).uats, AskApproval(s, r).releases)
  {
    AskApprovalDoes(s, r);
    var next := AskApproval(s, r);
    hide AskApproval, TasksSound, TicketsAgree, TicketsDone, ReleasesAgree, ReleasesSound, LiveChecksAgree, AllRest, HasUat;
    assert forall i :: 0 <= i < |s.uats| ==> next.uats[i] == s.uats[i];
    forall x | 0 <= x < |next.releases| && next.releases[x].status == ApprovalRequested && next.releases[x].uatRequired
      ensures HasUat(next.uats, x)
    {
      if x == r && |next.uats| > |s.uats| {
        HasUatAt(next.uats, |s.uats|, r);
      } else if |next.uats| > |s.uats| {
        RequestElsewhere(s.uats, next.uats, r, x);
      }
    }
  }

  /** Joining an approved release asks again, but there the client has answered already. */
  lemma JoinAsksNothingNew(s: Desk, id: nat, r: nat)
    requires Inv(s) && ReleaseOffered(s, AddToRelease(id, r))
    ensures NoneAsks(s.releases, JoinRelease(s, id, r).releases) && JoinRelease(s, id, r).uats == s.uats
  {
    ReleaseAt(s, r);
    hide Inv, AllApproved;
  }

  lemma PublishAsksNothing(s: Desk, r: nat)
    requires r < |s.releases| && s.releases[r].tasks != []
    ensures NoneAsks(s.releases, PublishNow(s, r).releases)
  {
    hide PublishNow;
    PublishExtends(s, r);
  }

  lemma OtherAsksNothing(s: Desk, a: ReleaseAction)
    requires ReleaseOffered(s, a) && !a.RequestApproval? && !a.Publish? && !a.AddToRelease?
    ensures NoneAsks(s.releases, ApplyRelease(s, a).releases) && ApplyRelease(s, a).uats == s.uats
  {
    hide Publishable, Stamped, ReadyTasks, RollEach, AllApproved, ApprovalTask;
  }

  lemma QuietReleaseSignOffs(s: Desk, a: ReleaseAction)
    requires Inv(s) && ReleaseOffered(s, a) && SignOffs(s.uats, s.releases) && !a.RequestApproval?
    ensures SignOffs(ApplyRelease(s, a).uats, ApplyRelease(s, a).releases)
  {
    hide Inv, SignOffs, NoneAsks, UatsExtend, JoinRelease, PublishNow;
    ExtendItself(s.uats);
    if a.AddToRelease? {
      JoinAsksNothingNew(s, a.id, a.r);
    } else if a.Publish? {
      PublishExtends(s, a.r);
      PublishAsksNothing(s, a.r);
    } else {
      OtherAsksNothing(s, a);
      hide ApplyRelease;
    }
    QuietSignOffs(s, ApplyRelease(s, a));
  }

  lemma StepKeepsSignOffs(s: Desk, a: Action)
    requires Inv(s) && Offered(s, a) && SignOffs(s.uats, s.releases)
    ensures SignOffs(Apply(s, a).uats, Apply(s, a).releases)
  {
    hide SignOffs, Inv;
    SameAsks(s.releases);
    match a
    case OnTask(t) =>
      TaskExtends(s, t);
      QuietSignOffs(s, Apply(s, a));
    case OnTest(t) => TestKeepsSignOffs(s, t);
    case OnTicket(t) =>
      TicketLeaves(s, t);
      ExtendItself(s.uats);
      QuietSignOffs(s, Apply(s, a));
    case OnRelease(t) =>
      if t.RequestApproval? {
        AskKeepsSignOffs(s, t.r);
      } else {
        QuietReleaseSignOffs(s, t);
      }
  }

  // ----- pressing buttons -----

  predicate Good(s: Desk) {
    Inv(s) && SignOffs(s.uats, s.releases)
  }

  lemma {:induction false} RunKeepsGood(s: Desk, actions: seq<Action>, end: Desk)
    requires Good(s) && Run(s, actions, end)
    ensures Good(end)
    decreases |actions|
  {
    hide Inv, SignOffs;
    if actions != [] {
      StepKeeps(s, actions[0]);
      StepKeepsSignOffs(s, actions[0]);
      RunKeepsGood(Apply(s, actions[0]), actions[1..], end);
    }
  }

  lemma ReachableGood(s: Desk)
    requires Reachable(s)
    ensures Good(s)
  {
    var actions :| Run(EMPTY, actions, s);
    RunKeepsGood(EMPTY, actions, s);
  }

  lemma {:induction false} RunConcat(s: Desk, first: seq<Action>, mid: Desk, second: seq<Action>, end: Desk)
    requires Run(s, first, mid) && Run(mid, second, end)
    ensures Run(s, first + second, end)
    decreases |first|
  {
    hide Offered, Apply;
    if first == [] {
      assert first + second == second;
    } else {
      assert (first + second)[1..] == first[1..] + second;
      RunConcat(Apply(s, first[0]), first[1..], mid, second, end);
    }
  }

  lemma LeadsTrans(s: Desk, mid: Desk, end: Desk)
    requires Leads(s, mid) && Leads(mid, end)
    ensures Leads(s, end)
  {
    hide Run;
    var first :| Run(s, first, mid);
    var second :| Run(mid, second, end);
    RunConcat(s, first, mid, second, end);
  }

  lemma LeadsItself(s: Desk)
    ensures Leads(s, s)
  {
    assert Run(s, [], s);
  }

  lemma Press(s: Desk, a: Action)
    requires Good(s) && Offered(s, a)
    ensures Leads(s, Apply(s, a)) && Good(Apply(s, a))
  {
    hide Offered, Apply, Inv, SignOffs;
    StepKeeps(s, a);
    StepKeepsSignOffs(s, a);
    assert [a][1..] == [];
    assert Run(Apply(s, a), [], Apply(s, a));
    assert Run(s, [a], Apply(s, a));
  }
}
