/** Support tickets: who a new one goes to, and what happens while nobody acknowledges it. */
module SupportRouting {
  import opened Workflow

  /** One line of a ticket's assignment log.  `Routed` lines carry the candidates passed over instead of a `from`. */
  datatype Line =
    | Routed(chosen: string, skipped: seq<string>)
    | HandedOver(level: nat, from: Option<string>, to: Option<string>)
    | AcknowledgedBy(who: string)

  datatype Case = Case(
    project: string, area: string, kind: string, status: TicketStatus, assignedTo: Option<string>, level: nat,
    ackDue: Option<int>, log: seq<Line>)

  datatype Owner = Owner(primary: string, backup: string, senior: string, areas: map<string, string>, limit: nat)

  /** What a task adds to its assignee's workload. */
  datatype Work = Work(assignedTo: Option<string>, status: Status)

  /** The support side of the data; the newest case has the largest index. */
  datatype Support = Support(
    cases: seq<Case>, work: seq<Work>, owners: map<string, Owner>, fallback: Owner, onCall: map<string, string>,
    away: set<string>, clock: int, ackMinutes: nat, escalationMinutes: nat, directKinds: set<string>)

  function OwnerOf(s: Support, project: string): Owner {
    if project in s.owners then s.owners[project] else s.fallback
  }

  function Today(s: Support, project: string): Option<string> {
    if project in s.onCall then Some(s.onCall[project]) else None
  }

  // ----- workload -----

  function CaseLoad(cases: seq<Case>, user: string): nat {
    if cases == [] then 0
    else
      var c := cases[|cases| - 1];
      CaseLoad(cases[..|cases| - 1], user) + if c.assignedTo == Some(user) && !TicketClosed(c.status) then 1 else 0
  }

  function WorkLoad(work: seq<Work>, user: string): nat {
    if work == [] then 0
    else
      var w := work[|work| - 1];
      WorkLoad(work[..|work| - 1], user) + if w.assignedTo == Some(user) && w.status in {InProgress, Assigned} then 1 else 0
  }

  function Load(s: Support, user: string): nat {
    CaseLoad(s.cases, user) + WorkLoad(s.work, user)
  }

  predicate Available(s: Support, user: string, project: string) {
    user !in s.away && Load(s, user) < OwnerOf(s, project).limit
  }

  // ----- routing -----

  const NOBODY := "—"

  function Present(user: Option<string>): seq<string> {
    if user.Some? && user.value != "" && user.value != NOBODY then [user.value] else []
  }

  /** Module owner, primary, on-call and backup, as far as they are set. */
  function Candidates(s: Support, c: Case): seq<string> {
    var o := OwnerOf(s, c.project);
    Present(if c.area in o.areas then Some(o.areas[c.area]) else None) +
    Present(Some(o.primary)) + Present(Today(s, c.project)) + Present(Some(o.backup))
  }

  function FirstAvailable(s: Support, project: string, users: seq<string>, k: nat): nat
    requires k <= |users|
    decreases |users| - k
  {
    if k < |users| && !Available(s, users[k], project) then FirstAvailable(s, project, users, k + 1) else k
  }

  function WithCase(s: Support, i: nat, c: Case): Support
    requires i < |s.cases|
  {
    s.(cases := s.cases[i := c])
  }

  function RoutedCase(s: Support, c: Case): Case {
    if c.kind !in s.directKinds then c.(status := NewTicket, assignedTo := None)
    else
      var users := Candidates(s, c);
      var k := FirstAvailable(s, c.project, users, 0);
      if k < |users| then
        c.(status := AutoAssigned, assignedTo := Some(users[k]), level := 0, ackDue := Some(s.clock + s.ackMinutes),
           log := c.log + [Routed(users[k], users[..k])])
      else
        var senior := OwnerOf(s, c.project).senior;
        c.(status := Escalated, assignedTo := Some(senior), level := 2, log := c.log + [Routed(senior, users)])
  }

  /** A ticket just raised, before it is routed. */
  function Fresh(project: string, area: string, kind: string): Case {
    Case(project, area, kind, NewTicket, None, 0, None, [])
  }

  function Raise(s: Support, project: string, area: string, kind: string): Support {
    var added := s.(cases := s.cases + [Fresh(project, area, kind)]);
    WithCase(added, |s.cases|, RoutedCase(added, Fresh(project, area, kind)))
  }

  lemma {:induction false} FirstAvailableIsFirst(s: Support, project: string, users: seq<string>, k: nat)
    requires k <= |users|
    ensures var r := FirstAvailable(s, project, users, k);
      && k <= r <= |users|
      && (forall j :: k <= j < r ==> !Available(s, users[j], project))
      && (r < |users| ==> Available(s, users[r], project))
    decreases |users| - k
  {
    if k < |users| && !Available(s, users[k], project) {
      FirstAvailableIsFirst(s, project, users, k + 1);
    }
  }

  /** Main: a direct ticket goes to the first available candidate, the log naming exactly those before, all unavailable;
      only when every candidate is unavailable does it go to the senior, at level 2. */
  lemma RoutePicksFirstAvailable(s: Support, c: Case)
    requires c.kind in s.directKinds && c.log == []
    ensures var users, r := Candidates(s, c), RoutedCase(s, c);
      if exists k :: 0 <= k < |users| && Available(s, users[k], c.project) then
        && r.status == AutoAssigned && r.level == 0
        && |r.log| == 1 && r.log[0].Routed? && Some(r.log[0].chosen) == r.assignedTo
        && Available(s, r.log[0].chosen, c.project)
        && |r.log[0].skipped| < |users|
        && r.log[0].skipped + [r.log[0].chosen] == users[..|r.log[0].skipped| + 1]
        && forall u :: u in r.log[0].skipped ==> !Available(s, u, c.project)
      else
        r.status == Escalated && r.level == 2 && r.log == [Routed(OwnerOf(s, c.project).senior, users)]
        && r.assignedTo == Some(OwnerOf(s, c.project).senior)
  {
    hide Available, Candidates;
    var users := Candidates(s, c);
    FirstAvailableIsFirst(s, c.project, users, 0);
    var k := FirstAvailable(s, c.project, users, 0);
    if k < |users| {
      assert Available(s, users[k], c.project);
      assert users[..k] + [users[k]] == users[..k + 1];
    } else {
      assert forall j :: 0 <= j < |users| ==> !Available(s, users[j], c.project);
    }
  }

  // ----- workload over any run of new tickets -----

  lemma CaseLoadOfLast(cases: seq<Case>, c: Case, user: string)
    ensures CaseLoad(cases + [c], user) ==
      CaseLoad(cases, user) + if c.assignedTo == Some(user) && !TicketClosed(c.status) then 1 else 0
  {
    assert (cases + [c])[..|cases|] == cases;
  }

  /** A new ticket adds one to its assignee's load and nothing to anyone else's. */
  lemma RaiseAddsOne(s: Support, project: string, area: string, kind: string, user: string)
    ensures Load(Raise(s, project, area, kind), user) ==
      Load(s, user) + if Raise(s, project, area, kind).cases[|s.cases|].assignedTo == Some(user) then 1 else 0
  {
    hide Candidates, FirstAvailable;
    var blank := Fresh(project, area, kind);
    var added := s.(cases := s.cases + [blank]);
    var routed := RoutedCase(added, blank);
    assert Raise(s, project, area, kind).cases == s.cases + [routed];
    CaseLoadOfLast(s.cases, routed, user);
  }

  /** The new ticket itself does not count before it is assigned. */
  lemma FreshAddsNothing(s: Support, project: string, area: string, kind: string, user: string)
    ensures Load(s.(cases := s.cases + [Fresh(project, area, kind)]), user) == Load(s, user)
  {
    CaseLoadOfLast(s.cases, Fresh(project, area, kind), user);
  }

  /** Main: an automatically chosen assignee ends within the project's limit. */
  lemma AutoAssignedWithinLimit(s: Support, project: string, area: string, kind: string)
    requires Raise(s, project, area, kind).cases[|s.cases|].status == AutoAssigned
    ensures var after := Raise(s, project, area, kind);
      var to := after.cases[|s.cases|].assignedTo;
      to.Some? && to.value !in s.away && Load(after, to.value) <= OwnerOf(s, project).limit
  {
    hide Candidates;
    var blank := Fresh(project, area, kind);
    var added := s.(cases := s.cases + [blank]);
    var users := Candidates(added, blank);
    FirstAvailableIsFirst(added, project, users, 0);
    var k := FirstAvailable(added, project, users, 0);
    FreshAddsNothing(s, project, area, kind, users[k]);
    RaiseAddsOne(s, project, area, kind, users[k]);
  }

  /** A run of newly raised tickets. */
  function RaiseAll(s: Support, news: seq<(string, string, string)>): Support
    decreases |news|
  {
    if news == [] then s
    else RaiseAll(Raise(s, news[0].0, news[0].1, news[0].2), news[1..])
  }

  /** No project's senior, who alone takes tickets when nobody is available. */
  predicate NoSenior(s: Support, user: string) {
    user != s.fallback.senior && forall p :: p in s.owners ==> s.owners[p].senior != user
  }

  predicate LimitsAtMost(s: Support, limit: nat) {
    s.fallback.limit <= limit && forall p :: p in s.owners ==> s.owners[p].limit <= limit
  }

  lemma RaiseWithinLimit(s: Support, project: string, area: string, kind: string, user: string, limit: nat)
    requires NoSenior(s, user) && LimitsAtMost(s, limit) && Load(s, user) <= limit
    ensures Load(Raise(s, project, area, kind), user) <= limit
  {
    hide Load, Candidates, FirstAvailable;
    var after := Raise(s, project, area, kind);
    var c := after.cases[|s.cases|];
    RaiseAddsOne(s, project, area, kind, user);
    if c.assignedTo == Some(user) && c.status == AutoAssigned {
      AutoAssignedWithinLimit(s, project, area, kind);
    }
  }

  /** Main: however many tickets come in, nobody but a senior is taken past the largest limit. */
  lemma {:induction false} RunWithinLimit(s: Support, news: seq<(string, string, string)>, user: string, limit: nat)
    requires NoSenior(s, user) && LimitsAtMost(s, limit) && Load(s, user) <= limit
    ensures Load(RaiseAll(s, news), user) <= limit
    decreases |news|
  {
    hide Load, RoutedCase;
    if news != [] {
      RaiseWithinLimit(s, news[0].0, news[0].1, news[0].2, user, limit);
      RunWithinLimit(Raise(s, news[0].0, news[0].1, news[0].2), news[1..], user, limit);
    }
  }

  // ----- escalation sweeps -----

  predicate Overdue(s: Support, c: Case) {
    c.status in {AutoAssigned, Escalated} && c.ackDue.Some? && s.clock >= c.ackDue.value
  }

  /** Who gets a level-1 escalation: the backup, else whoever is on call, else the senior.  The person on call may be
      nobody at all. */
  function NextInLine(s: Support, c: Case): Option<string> {
    var o := OwnerOf(s, c.project);
    if Some(o.backup) != c.assignedTo && Available(s, o.backup, c.project) then Some(o.backup)
    else if Today(s, c.project) != c.assignedTo then Today(s, c.project)
    else Some(o.senior)
  }

  function EscalatedCase(s: Support, c: Case): Case {
    if !Overdue(s, c) then c
    else if c.level == 0 then
      var to := NextInLine(s, c);
      c.(level := 1, status := Escalated, assignedTo := to, ackDue := Some(s.clock + s.escalationMinutes - s.ackMinutes),
         log := c.log + [HandedOver(1, c.assignedTo, to)])
    else if c.level == 1 then
      var senior := Some(OwnerOf(s, c.project).senior);
      c.(level := 2, assignedTo := senior, ackDue := None, log := c.log + [HandedOver(2, c.assignedTo, senior)])
    else c
  }

  /** `escalateOverdue` over the first `n` cases, newest first: each sees the assignments made before it. */
  function Sweep(s: Support, n: nat): (r: Support)
    requires n <= |s.cases|
    ensures |r.cases| == |s.cases|
    decreases n
  {
    if n == 0 then s else Sweep(WithCase(s, n - 1, EscalatedCase(s, s.cases[n - 1])), n - 1)
  }

  function SweepAll(s: Support): Support {
    Sweep(s, |s.cases|)
  }

  function TotalLevel(cases: seq<Case>): nat {
    if cases == [] then 0 else TotalLevel(cases[..|cases| - 1]) + cases[|cases| - 1].level
  }

  lemma {:induction false} TotalLevelUpdate(cases: seq<Case>, i: nat, c: Case)
    requires i < |cases|
    ensures TotalLevel(cases[i := c]) == TotalLevel(cases) - cases[i].level + c.level
  {
    var n := |cases| - 1;
    if i < n {
      TotalLevelUpdate(cases[..n], i, c);
      assert cases[i := c][..n] == cases[..n][i := c];
    } else {
      assert cases[i := c][..n] == cases[..n];
    }
  }

  /** What one sweep does to one case: nothing, or one level up. */
  predicate Raised(s: Support, was: Case, now: Case) {
    now == was || (Overdue(s, was) && was.level <= 1 && now.level == was.level + 1)
  }

  /** Everything but the cases. */
  predicate SameSetting(a: Support, b: Support) {
    && a.work == b.work && a.owners == b.owners && a.fallback == b.fallback && a.onCall == b.onCall
    && a.away == b.away && a.clock == b.clock && a.ackMinutes == b.ackMinutes
    && a.escalationMinutes == b.escalationMinutes && a.directKinds == b.directKinds
  }

  lemma {:induction false} SweepRaisesByOne(s: Support, n: nat, i: nat)
    requires n <= |s.cases| && i < |s.cases|
    ensures SameSetting(s, Sweep(s, n))
    ensures Raised(s, s.cases[i], Sweep(s, n).cases[i])
    ensures i >= n ==> Sweep(s, n).cases[i] == s.cases[i]
    ensures i < n && Overdue(s, s.cases[i]) && s.cases[i].level <= 1 ==> Sweep(s, n).cases[i].level == s.cases[i].level + 1
    ensures i < n && s.cases[i].level == 0 && Overdue(s, s.cases[i]) ==>
      Sweep(s, n).cases[i].ackDue == Some(s.clock + s.escalationMinutes - s.ackMinutes)
    ensures i < n && s.cases[i].level == 1 && Overdue(s, s.cases[i]) ==> Sweep(s, n).cases[i].ackDue == None
    decreases n
  {
    hide NextInLine;
    if n > 0 {
      SweepRaisesByOne(WithCase(s, n - 1, EscalatedCase(s, s.cases[n - 1])), n - 1, i);
    }
  }

  /** A sweep with nothing to raise is no change at all. */
  lemma {:induction false} SweepOfSettled(s: Support, n: nat)
    requires n <= |s.cases|
    requires forall i :: 0 <= i < |s.cases| ==> !(Overdue(s, s.cases[i]) && s.cases[i].level <= 1)
    ensures Sweep(s, n) == s
    decreases n
  {
    if n > 0 {
      assert EscalatedCase(s, s.cases[n - 1]) == s.cases[n - 1];
      assert WithCase(s, n - 1, s.cases[n - 1]) == s;
      SweepOfSettled(s, n - 1);
    }
  }

  /** Main: at a fixed clock the third sweep changes nothing. */
  lemma ThirdSweepIsIdle(s: Support)
    ensures SweepAll(SweepAll(SweepAll(s))) == SweepAll(SweepAll(s))
  {
    hide Sweep;
    var one, two := SweepAll(s), SweepAll(SweepAll(s));
    forall i | 0 <= i < |two.cases| ensures !(Overdue(two, two.cases[i]) && two.cases[i].level <= 1) {
      SweepRaisesByOne(s, |s.cases|, i);
      SweepRaisesByOne(one, |one.cases|, i);
    }
    SweepOfSettled(two, |two.cases|);
  }

  /** With more time to escalate than to acknowledge, one sweep is already enough. */
  lemma SecondSweepIsIdle(s: Support)
    requires s.ackMinutes < s.escalationMinutes
    ensures SweepAll(SweepAll(s)) == SweepAll(s)
  {
    hide Sweep;
    var one := SweepAll(s);
    forall i | 0 <= i < |one.cases| ensures !(Overdue(one, one.cases[i]) && one.cases[i].level <= 1) {
      SweepRaisesByOne(s, |s.cases|, i);
    }
    SweepOfSettled(one, |one.cases|);
  }

  // ----- the other hand-overs -----

  function EscalateBy(s: Support, i: nat, to: string): Support
    requires i < |s.cases|
  {
    var c := s.cases[i];
    WithCase(s, i, c.(
      log := c.log + [HandedOver(c.level + 1, c.assignedTo, Some(to))], assignedTo := Some(to), level := c.level + 1,
      status := Escalated, ackDue := Some(s.clock + s.ackMinutes)))
  }

  function Reassign(s: Support, i: nat, to: string): Support
    requires i < |s.cases|
  {
    var c := s.cases[i];
    var again := c.status in {NewTicket, Escalated};
    WithCase(s, i, c.(
      log := c.log + [HandedOver(c.level, c.assignedTo, Some(to))], assignedTo := Some(to),
      status := if again then AutoAssigned else c.status,
      ackDue := if again then Some(s.clock + s.ackMinutes) else c.ackDue))
  }

  function Accept(s: Support, i: nat, me: string): Support
    requires i < |s.cases|
  {
    var c := s.cases[i];
    WithCase(s, i, c.(status := Acknowledged, ackDue := None, log := c.log + [AcknowledgedBy(me)]))
  }

  /** `assignTicket` writes the assignee without a line in the log. */
  function AssignCase(s: Support, i: nat, to: string): Support
    requires i < |s.cases|
  {
    var c := s.cases[i];
    var status := if c.status in {NewTicket, Reopened} then TicketAssigned else c.status;
    WithCase(s, i, c.(assignedTo := Some(to), status := status))
  }

  datatype Step =
    | NewCase(project: string, area: string, kind: string)
    | SweepNow
    | EscalateNow(i: nat, to: string)
    | ReassignNow(i: nat, to: string)
    | AcceptNow(i: nat, me: string)
    | AssignNow(i: nat, to: string)
    /** Everything else that happens: time passes, rosters and tasks change, tickets move on. */
    | Elsewhere(next: Support)

  /** What the rest of the system may change of a case: only its status. */
  predicate OnlyStatuses(s: Support, next: Support) {
    |next.cases| == |s.cases| && forall i :: 0 <= i < |s.cases| ==> next.cases[i].(status := s.cases[i].status) == s.cases[i]
  }

  predicate CanStep(s: Support, step: Step) {
    match step
    case NewCase(_, _, _) => true
    case SweepNow => true
    case EscalateNow(i, to) => i < |s.cases| && !TicketClosed(s.cases[i].status) && s.cases[i].level < 2
    case ReassignNow(i, to) => i < |s.cases| && !TicketClosed(s.cases[i].status) && to !in s.away
    case AcceptNow(i, _) => i < |s.cases| && s.cases[i].status in {AutoAssigned, Escalated}
    case AssignNow(i, _) => i < |s.cases| && !TicketClosed(s.cases[i].status)
    case Elsewhere(next) => OnlyStatuses(s, next)
  }

  function DoStep(s: Support, step: Step): Support
    requires CanStep(s, step)
  {
    match step
    case NewCase(project, area, kind) => Raise(s, project, area, kind)
    case SweepNow => SweepAll(s)
    case EscalateNow(i, to) => EscalateBy(s, i, to)
    case ReassignNow(i, to) => Reassign(s, i, to)
    case AcceptNow(i, me) => Accept(s, i, me)
    case AssignNow(i, to) => AssignCase(s, i, to)
    case Elsewhere(next) => next
  }

  predicate RunsTo(s: Support, steps: seq<Step>, end: Support)
    decreases |steps|
  {
    if steps == [] then end == s else CanStep(s, steps[0]) && RunsTo(DoStep(s, steps[0]), steps[1..], end)
  }

  // ----- what every run keeps -----

  /** Whom a line leaves the ticket with. */
  function Holder(line: Line): Option<string> {
    match line
    case Routed(chosen, _) => Some(chosen)
    case HandedOver(_, _, to) => to
    case AcknowledgedBy(who) => Some(who)
  }

  function LastHolder(log: seq<Line>): Option<string> {
    if log == [] then None else Holder(log[|log| - 1])
  }

  /** Every hand-over names the holder before it, and the last holder is the current assignee. */
  predicate Chained(c: Case) {
    && (forall k :: 0 <= k < |c.log| && c.log[k].HandedOver? ==> c.log[k].from == LastHolder(c.log[..k]))
    && LastHolder(c.log) == c.assignedTo
  }

  predicate LevelsBounded(s: Support) {
    forall i :: 0 <= i < |s.cases| ==> s.cases[i].level <= 2
  }

  predicate AllChained(s: Support) {
    forall i :: 0 <= i < |s.cases| ==> Chained(s.cases[i])
  }

  /** The steps that write no wrong line: all but an acceptance by somebody else and an unlogged assignment. */
  predicate KeepsChain(s: Support, step: Step)
    requires CanStep(s, step)
  {
    match step
    case AcceptNow(i, me) => s.cases[i].assignedTo == Some(me)
    case AssignNow(i, to) => s.cases[i].assignedTo == Some(to)
    case _ => true
  }

  predicate RunKeepsChain(s: Support, steps: seq<Step>)
    decreases |steps|
  {
    steps == [] || (CanStep(s, steps[0]) && KeepsChain(s, steps[0]) && RunKeepsChain(DoStep(s, steps[0]), steps[1..]))
  }

  lemma ChainGrows(c: Case, line: Line, next: Case)
    requires Chained(c) && next.log == c.log + [line] && next.assignedTo == Holder(line)
    requires line.HandedOver? ==> line.from == c.assignedTo
    ensures Chained(next)
  {
    forall k | 0 <= k < |next.log| && next.log[k].HandedOver? ensures next.log[k].from == LastHolder(next.log[..k]) {
      if k < |c.log| {
        assert next.log[..k] == c.log[..k];
      } else {
        assert next.log[..k] == c.log;
      }
    }
  }

  lemma EscalatedIsChained(s: Support, c: Case)
    requires Chained(c)
    ensures Chained(EscalatedCase(s, c))
  {
    hide Chained, NextInLine;
    if Overdue(s, c) && c.level == 0 {
      ChainGrows(c, HandedOver(1, c.assignedTo, NextInLine(s, c)), EscalatedCase(s, c));
    } else if Overdue(s, c) && c.level == 1 {
      ChainGrows(c, HandedOver(2, c.assignedTo, Some(OwnerOf(s, c.project).senior)), EscalatedCase(s, c));
    }
  }

  lemma {:induction false} SweepIsChained(s: Support, n: nat)
    requires AllChained(s) && n <= |s.cases|
    ensures AllChained(Sweep(s, n))
    decreases n
  {
    hide Chained, EscalatedCase;
    if n > 0 {
      EscalatedIsChained(s, s.cases[n - 1]);
      SweepIsChained(WithCase(s, n - 1, EscalatedCase(s, s.cases[n - 1])), n - 1);
    }
  }

  lemma RaisedIsChained(s: Support, project: string, area: string, kind: string)
    ensures Chained(RoutedCase(s, Fresh(project, area, kind)))
  {
    hide Candidates, FirstAvailable;
    var c := Fresh(project, area, kind);
    var r := RoutedCase(s, c);
    if r.log != [] {
      ChainGrows(c, r.log[0], r);
    }
  }

  lemma StatusIsNoLink(c: Case, status: TicketStatus)
    ensures Chained(c.(status := status)) == Chained(c)
  {
  }

  lemma ChangedCaseIsChained(s: Support, step: Step)
    requires AllChained(s) && CanStep(s, step) && KeepsChain(s, step)
    requires step.EscalateNow? || step.ReassignNow? || step.AcceptNow? || step.AssignNow?
    ensures AllChained(DoStep(s, step))
  {
    var i := step.i;
    var c, next := s.cases[i], DoStep(s, step).cases[i];
    assert Chained(next) by {
      if step.EscalateNow? {
        ChainGrows(c, HandedOver(c.level + 1, c.assignedTo, Some(step.to)), next);
      } else if step.ReassignNow? {
        ChainGrows(c, HandedOver(c.level, c.assignedTo, Some(step.to)), next);
      } else if step.AcceptNow? {
        ChainGrows(c, AcknowledgedBy(step.me), next);
      }
    }
    hide Chained;
  }

  lemma StepIsChained(s: Support, step: Step)
    requires AllChained(s) && CanStep(s, step) && KeepsChain(s, step)
    ensures AllChained(DoStep(s, step))
  {
    hide Chained, Sweep, RoutedCase;
    match step
    case NewCase(project, area, kind) =>
      RaisedIsChained(s.(cases := s.cases + [Fresh(project, area, kind)]), project, area, kind);
    case SweepNow => SweepIsChained(s, |s.cases|);
    case Elsewhere(next) =>
      forall i | 0 <= i < |s.cases| ensures Chained(next.cases[i]) {
        StatusIsNoLink(next.cases[i], s.cases[i].status);
      }
    case _ => ChangedCaseIsChained(s, step);
  }

  /** Main: over any run of such steps the log is a chain of hand-overs that ends at the assignee. */
  lemma {:induction false} LogIsAChain(s: Support, steps: seq<Step>, end: Support)
    requires AllChained(s) && RunsTo(s, steps, end) && RunKeepsChain(s, steps)
    ensures AllChained(end)
    decreases |steps|
  {
    hide AllChained, CanStep, KeepsChain;
    if steps != [] {
      StepIsChained(s, steps[0]);
      LogIsAChain(DoStep(s, steps[0]), steps[1..], end);
    }
  }

  /** Accepting keeps the chain exactly when the assignee accepts; a manager accepting breaks it. */
  lemma AcceptChainsIff(s: Support, i: nat, me: string)
    requires i < |s.cases| && Chained(s.cases[i])
    ensures Chained(Accept(s, i, me).cases[i]) <==> s.cases[i].assignedTo == Some(me)
  {
    var c, next := s.cases[i], Accept(s, i, me).cases[i];
    if c.assignedTo == Some(me) {
      ChainGrows(c, AcknowledgedBy(me), next);
    } else {
      assert LastHolder(next.log) == Some(me);
    }
  }

  /** Assigning from the ticket page keeps the chain exactly when it changes nothing: it writes no line. */
  lemma AssignChainsIff(s: Support, i: nat, to: string)
    requires i < |s.cases| && Chained(s.cases[i])
    ensures Chained(AssignCase(s, i, to).cases[i]) <==> s.cases[i].assignedTo == Some(to)
  {
  }

  lemma StepIsBounded(s: Support, step: Step)
    requires LevelsBounded(s) && CanStep(s, step)
    ensures LevelsBounded(DoStep(s, step))
  {
    hide Sweep, Candidates, FirstAvailable;
    if step.SweepNow? {
      forall i | 0 <= i < |s.cases| ensures SweepAll(s).cases[i].level <= 2 {
        SweepRaisesByOne(s, |s.cases|, i);
      }
    }
  }

  /** Main: no run of any steps takes a ticket past level 2. */
  lemma {:induction false} LevelsStayBounded(s: Support, steps: seq<Step>, end: Support)
    requires LevelsBounded(s) && RunsTo(s, steps, end)
    ensures LevelsBounded(end)
    decreases |steps|
  {
    hide LevelsBounded, CanStep;
    if steps != [] {
      StepIsBounded(s, steps[0]);
      LevelsStayBounded(DoStep(s, steps[0]), steps[1..], end);
    }
  }

  // ----- escalations that reach nobody -----

  /** Nobody on the roster, or its placeholder. */
  predicate IsNobody(user: Option<string>) {
    user.None? || user == Some(NOBODY)
  }

  /** The project's backup and senior are real people. */
  predicate Staffed(s: Support, project: string) {
    OwnerOf(s, project).backup != NOBODY && OwnerOf(s, project).senior != NOBODY
  }

  /** The backup cannot take the ticket over: it is the backup's own, or the backup is away or full. */
  predicate BackupIsOut(s: Support, c: Case) {
    var backup := OwnerOf(s, c.project).backup;
    Some(backup) == c.assignedTo || !Available(s, backup, c.project)
  }

  /** Main: exactly when a level-1 escalation hands the ticket to nobody: the backup cannot take it and nobody real is on
      call.  The senior, who is always there, is then passed over. */
  lemma EscalationReachesNobodyIff(s: Support, c: Case)
    requires Overdue(s, c) && c.level == 0 && !IsNobody(c.assignedTo) && Staffed(s, c.project)
    ensures IsNobody(EscalatedCase(s, c).assignedTo) <==> IsNobody(Today(s, c.project)) && BackupIsOut(s, c)
  {
    hide Available;
  }

  /** One such case: the backup's own ticket, with the placeholder on call. */
  lemma EscalationMayReachNobody(s: Support, c: Case)
    requires Overdue(s, c) && c.level == 0 && c.assignedTo.Some? && c.assignedTo != Some(NOBODY)
    requires c.assignedTo == Some(OwnerOf(s, c.project).backup) && Today(s, c.project) == Some(NOBODY)
    ensures EscalatedCase(s, c).assignedTo == Some(NOBODY)
  {
  }

  /** The state in which the sweep comes to case `i`: the newer cases are done. */
  function SweepTo(s: Support, n: nat, i: nat): (r: Support)
    requires i <= n <= |s.cases|
    ensures |r.cases| == |s.cases|
    decreases n
  {
    if n == i then s else SweepTo(WithCase(s, n - 1, EscalatedCase(s, s.cases[n - 1])), n - 1, i)
  }

  lemma {:induction false} SweepComesTo(s: Support, n: nat, i: nat)
    requires i < n <= |s.cases|
    ensures SameSetting(s, SweepTo(s, n, i + 1))
    ensures Sweep(s, n).cases[i] == EscalatedCase(SweepTo(s, n, i + 1), s.cases[i])
    decreases n
  {
    hide EscalatedCase;
    var next := WithCase(s, n - 1, EscalatedCase(s, s.cases[n - 1]));
    if n == i + 1 {
      SweepRaisesByOne(next, n - 1, i);
    } else {
      SweepComesTo(next, n - 1, i);
    }
  }

  /** Main: the same of a whole sweep, in which the backup's load is what the newer tickets have made of it. */
  lemma SweepReachesNobodyIff(s: Support, i: nat)
    requires i < |s.cases|
    requires Overdue(s, s.cases[i]) && s.cases[i].level == 0 && !IsNobody(s.cases[i].assignedTo)
    requires Staffed(s, s.cases[i].project)
    ensures IsNobody(SweepAll(s).cases[i].assignedTo) <==>
      IsNobody(Today(s, s.cases[i].project)) && BackupIsOut(SweepTo(s, |s.cases|, i + 1), s.cases[i])
  {
    hide Sweep, SweepTo, EscalatedCase, BackupIsOut;
    SweepComesTo(s, |s.cases|, i);
    var turn := SweepTo(s, |s.cases|, i + 1);
    assert OwnerOf(turn, s.cases[i].project) == OwnerOf(s, s.cases[i].project);
    EscalationReachesNobodyIff(turn, s.cases[i]);
  }

  /** So with real people on call every escalated ticket reaches somebody. */
  lemma StaffedRosterReachesSomebody(s: Support, i: nat)
    requires i < |s.cases|
    requires Overdue(s, s.cases[i]) && s.cases[i].level == 0 && !IsNobody(s.cases[i].assignedTo)
    requires Staffed(s, s.cases[i].project) && !IsNobody(Today(s, s.cases[i].project))
    ensures !IsNobody(SweepAll(s).cases[i].assignedTo)
  {
    hide SweepAll;
    SweepReachesNobodyIff(s, i);
  }

  /** A state in which a sweep hands a ticket to the placeholder: the backup is away and the roster has no name. */
  lemma NobodyIsReached() returns (s: Support)
    ensures |s.cases| == 1 && s.cases[0].assignedTo == Some("u_meera") && Staffed(s, "p_hr")
    ensures SweepAll(s).cases[0].assignedTo == Some(NOBODY)
  {
    var owner := Owner("u_meera", "u_arjun", "u_sneha", map[], 8);
    var c := Case("p_hr", "Leave", "Bug", AutoAssigned, Some("u_meera"), 0, Some(10), [Routed("u_meera", [])]);
    s := Support([c], [], map[], owner, map["p_hr" := NOBODY], {"u_arjun"}, 10, 15, 30, {"Bug"});
    assert Sweep(s, 1) == Sweep(WithCase(s, 0, EscalatedCase(s, c)), 0);
  }
}
