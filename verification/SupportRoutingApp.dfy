/** Routing and escalation as they run: cases updated in place, candidates and overdue tickets walked by loops. */
module SupportRoutingApp {
  import opened Workflow
  import opened SupportRouting
  import opened SupportAnswers

  lemma LoadOfPrefix(cases: seq<Case>, k: nat, user: string)
    requires k < |cases|
    ensures CaseLoad(cases[..k + 1], user) ==
      CaseLoad(cases[..k], user) + if cases[k].assignedTo == Some(user) && !TicketClosed(cases[k].status) then 1 else 0
  {
    assert cases[..k + 1] == cases[..k] + [cases[k]];
    CaseLoadOfLast(cases[..k], cases[k], user);
  }

  /** What a step that writes no wrong line keeps. */
  lemma StepKeeps(s: Support, step: Step)
    requires LevelsBounded(s) && CanStep(s, step) && KeepsChain(s, step)
    ensures LevelsBounded(DoStep(s, step))
    ensures AllChained(s) ==> AllChained(DoStep(s, step))
  {
    hide LevelsBounded, AllChained, DoStep;
    StepIsBounded(s, step);
    if AllChained(s) {
      StepIsChained(s, step);
    }
  }

  class SupportApp {
    var cases: seq<Case>
    var work: seq<Work>
    var owners: map<string, Owner>
    var fallback: Owner
    var onCall: map<string, string>
    var away: set<string>
    var clock: int
    var ackMinutes: nat
    var escalationMinutes: nat
    var directKinds: set<string>

    function State(): Support
      reads this
    {
      Support(cases, work, owners, fallback, onCall, away, clock, ackMinutes, escalationMinutes, directKinds)
    }

    /** What every operation keeps: no ticket is past level 2. */
    ghost predicate Valid()
      reads this
    {
      LevelsBounded(State())
    }

    constructor (s: Support)
      ensures State() == s
    {
      cases, work, owners, fallback, onCall := s.cases, s.work, s.owners, s.fallback, s.onCall;
      away, clock, ackMinutes, escalationMinutes, directKinds :=
        s.away, s.clock, s.ackMinutes, s.escalationMinutes, s.directKinds;
    }

    /** The two `filter(…).length`. */
    method CountLoad(user: string) returns (load: nat)
      ensures load == Load(State(), user)
    {
      load := 0;
      for k := 0 to |cases|
        invariant load == CaseLoad(cases[..k], user)
      {
        LoadOfPrefix(cases, k, user);
        if cases[k].assignedTo == Some(user) && !TicketClosed(cases[k].status) {
          load := load + 1;
        }
      }
      assert cases[..|cases|] == cases;
      for k := 0 to |work|
        invariant load == CaseLoad(cases, user) + WorkLoad(work[..k], user)
      {
        assert work[..k + 1][..k] == work[..k];
        if work[k].assignedTo == Some(user) && work[k].status in {InProgress, Assigned} {
          load := load + 1;
        }
      }
      assert work[..|work|] == work;
    }

    method IsAvailable(user: string, project: string) returns (ok: bool)
      ensures ok == Available(State(), user, project)
    {
      if user in away {
        return false;
      }
      var load := CountLoad(user);
      return load < OwnerOf(State(), project).limit;
    }

    /** The loop of `route`, which keeps the trail of candidates skipped. */
    method WalkCandidates(i: nat)
      requires i < |cases|
      modifies this`cases
      ensures State() == WithCase(old(State()), i, RoutedCase(old(State()), old(cases)[i]))
    {
      hide Available, Candidates;
      var c := cases[i];
      var o := OwnerOf(State(), c.project);
      if c.kind !in directKinds {
        cases := cases[i := c.(status := NewTicket, assignedTo := None)];
        return;
      }
      var users := Candidates(State(), c);
      var trail: seq<string> := [];
      var k := 0;
      while k < |users|
        invariant 0 <= k <= |users| && trail == users[..k] && cases == old(cases)
        invariant FirstAvailable(State(), c.project, users, 0) == FirstAvailable(State(), c.project, users, k)
      {
        var ok := IsAvailable(users[k], c.project);
        if ok {
          cases := cases[i := c.(
            status := AutoAssigned, assignedTo := Some(users[k]), level := 0, ackDue := Some(clock + ackMinutes),
            log := c.log + [Routed(users[k], trail)])];
          return;
        }
        trail := trail + [users[k]];
        k := k + 1;
      }
      assert trail == users;
      cases := cases[i := c.(
        status := Escalated, assignedTo := Some(o.senior), level := 2, log := c.log + [Routed(o.senior, trail)])];
    }

    /** `route`: a direct ticket goes to the first free candidate, or to the senior. */
    method Route(i: nat)
      requires i < |cases|
      modifies this`cases
      ensures State() == WithCase(old(State()), i, RoutedCase(old(State()), old(cases)[i]))
      ensures var c := old(cases)[i];
        cases[i].assignedTo ==
          if c.kind !in directKinds then None
          else if Chosen(old(State()), c.project, c.area).Some? then Chosen(old(State()), c.project, c.area)
          else Some(OwnerRow(old(State()), c.project).senior)
    {
      hide RoutedCase, Chosen;
      RoutedTo(State(), cases[i]);
      WalkCandidates(i);
    }

    /** Raises a ticket and routes it: whoever is chosen automatically is present and within the project's limit. */
    method RaiseCase(project: string, area: string, kind: string)
      requires Valid()
      modifies this`cases
      ensures State() == Raise(old(State()), project, area, kind)
      ensures Valid() && (AllChained(old(State())) ==> AllChained(State()))
      ensures var c := cases[|old(cases)|];
        c.status == AutoAssigned ==>
          c.assignedTo.Some? && c.assignedTo.value !in away && Load(State(), c.assignedTo.value) <= OwnerOf(State(), project).limit
    {
      hide RoutedCase, Load, AllChained, LevelsBounded;
      ghost var s := State();
      StepKeeps(s, NewCase(project, area, kind));
      if Raise(s, project, area, kind).cases[|s.cases|].status == AutoAssigned {
        AutoAssignedWithinLimit(s, project, area, kind);
      }
      cases := cases + [Fresh(project, area, kind)];
      Route(|cases| - 1);
    }

    method FindNextInLine(c: Case) returns (to: Option<string>)
      ensures to == NextInLine(State(), c)
    {
      hide Available;
      var o := OwnerOf(State(), c.project);
      if Some(o.backup) != c.assignedTo {
        var ok := IsAvailable(o.backup, c.project);
        if ok {
          return Some(o.backup);
        }
      }
      var today := Today(State(), c.project);
      return if today != c.assignedTo then today else Some(o.senior);
    }

    method EscalateOne(i: nat) returns (raised: nat)
      requires i < |cases|
      modifies this`cases
      ensures State() == WithCase(old(State()), i, EscalatedCase(old(State()), old(cases)[i]))
      ensures raised == cases[i].level - old(cases)[i].level
    {
      hide NextInLine;
      var c := cases[i];
      if !(c.status in {AutoAssigned, Escalated}) || c.ackDue.None? || clock < c.ackDue.value {
        return 0;
      }
      if c.level == 0 {
        var to := FindNextInLine(c);
        cases := cases[i := c.(
          level := 1, status := Escalated, assignedTo := to, ackDue := Some(clock + escalationMinutes - ackMinutes),
          log := c.log + [HandedOver(1, c.assignedTo, to)])];
        return 1;
      } else if c.level == 1 {
        var senior := Some(OwnerOf(State(), c.project).senior);
        cases := cases[i := c.(
          level := 2, assignedTo := senior, ackDue := None, log := c.log + [HandedOver(2, c.assignedTo, senior)])];
        return 1;
      }
      return 0;
    }

    /** `escalateOverdue`: the number returned is the total rise in levels. */
    method EscalateOverdue() returns (n: nat)
      requires Valid()
      modifies this`cases
      ensures State() == SweepAll(old(State()))
      ensures TotalLevel(cases) == TotalLevel(old(cases)) + n
      ensures Valid() && (AllChained(old(State())) ==> AllChained(State()))
    {
      hide EscalatedCase, AllChained, LevelsBounded;
      ghost var was := State();
      StepKeeps(was, SweepNow);
      n := 0;
      var k := |cases|;
      while k > 0
        invariant 0 <= k <= |cases| == |was.cases|
        invariant Sweep(was, |was.cases|) == Sweep(State(), k)
        invariant TotalLevel(cases) == TotalLevel(was.cases) + n
      {
        k := k - 1;
        ghost var before := cases;
        var raised := EscalateOne(k);
        TotalLevelUpdate(before, k, cases[k]);
        n := n + raised;
      }
    }

    /** One level up, never past the second; the log says who had it, and the new assignee gets the full time. */
    method EscalateTicket(i: nat, to: string)
      requires Valid() && CanStep(State(), EscalateNow(i, to))
      modifies this`cases
      ensures State() == DoStep(old(State()), EscalateNow(i, to))
      ensures Valid() && (AllChained(old(State())) ==> AllChained(State()))
      ensures cases[i].level == old(cases)[i].level + 1 && cases[i].assignedTo == Some(to) && cases[i].status == Escalated
      ensures ackMinutes > 0 ==> !Overdue(State(), cases[i])
    {
      StepKeeps(State(), EscalateNow(i, to));
      hide AllChained, LevelsBounded;
      var c := cases[i];
      cases := cases[i := c.(log := c.log + [HandedOver(c.level + 1, c.assignedTo, Some(to))])];
      cases := cases[i := cases[i].(assignedTo := Some(to))];
      cases := cases[i := cases[i].(level := cases[i].level + 1)];
      cases := cases[i := cases[i].(status := Escalated, ackDue := Some(clock + ackMinutes))];
    }

    /** Somebody who is away is refused, and nothing changes; nobody away is ever handed a ticket this way. */
    method ReassignTicket(i: nat, to: string) returns (done: bool)
      requires Valid() && i < |cases| && !TicketClosed(cases[i].status)
      modifies this`cases
      ensures done <==> to !in away
      ensures State() == if to in away then old(State()) else DoStep(old(State()), ReassignNow(i, to))
      ensures Valid() && (AllChained(old(State())) ==> AllChained(State()))
      ensures done ==> cases[i].assignedTo == Some(to) && cases[i].level == old(cases)[i].level
      ensures done && old(cases)[i].status in {NewTicket, Escalated} ==>
        cases[i].status == AutoAssigned && cases[i].ackDue == Some(clock + ackMinutes)
      ensures cases[i].assignedTo != old(cases)[i].assignedTo ==> cases[i].assignedTo.Some? && cases[i].assignedTo.value !in away
    {
      if to in away {
        return false;
      }
      StepKeeps(State(), ReassignNow(i, to));
      hide AllChained, LevelsBounded;
      var c := cases[i];
      cases := cases[i := c.(log := c.log + [HandedOver(c.level, c.assignedTo, Some(to))])];
      cases := cases[i := cases[i].(assignedTo := Some(to))];
      if c.status in {NewTicket, Escalated} {
        cases := cases[i := cases[i].(status := AutoAssigned, ackDue := Some(clock + ackMinutes))];
      }
      return true;
    }

    /** An accepted ticket is never escalated, however late it gets; the log stays a chain exactly when the assignee is
        the one who accepts. */
    method AcceptTicket(i: nat, me: string)
      requires Valid() && CanStep(State(), AcceptNow(i, me))
      modifies this`cases
      ensures State() == DoStep(old(State()), AcceptNow(i, me))
      ensures Valid()
      ensures cases[i].status == Acknowledged && cases[i].assignedTo == old(cases)[i].assignedTo
      ensures forall late: Support :: EscalatedCase(late, cases[i]) == cases[i]
      ensures Chained(old(cases)[i]) ==> (Chained(cases[i]) <==> old(cases)[i].assignedTo == Some(me))
    {
      StepIsBounded(State(), AcceptNow(i, me));
      hide LevelsBounded, Chained;
      var c := cases[i];
      if Chained(c) {
        AcceptChainsIff(State(), i, me);
      }
      cases := cases[i := c.(status := Acknowledged, ackDue := None)];
      cases := cases[i := cases[i].(log := c.log + [AcknowledgedBy(me)])];
    }
  }
}
