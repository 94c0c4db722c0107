/** Who gets a ticket, written out: the order of the candidates, what counts as free, and where an escalation goes. */
module SupportAnswers {
  import opened Workflow
  import opened SupportRouting

  // ----- who is free -----

  /** An open ticket of the user. */
  predicate IsOpenFor(c: Case, user: string) {
    c.assignedTo == Some(user) && c.status != Resolved && c.status != Closed && c.status != TicketCancelled
  }

  /** A task the user is busy with. */
  predicate IsActiveFor(w: Work, user: string) {
    w.assignedTo == Some(user) && (w.status == InProgress || w.status == Assigned)
  }

  function OpenCases(cases: seq<Case>, user: string): set<nat> {
    set i: nat | i < |cases| && IsOpenFor(cases[i], user)
  }

  function ActiveTasks(work: seq<Work>, user: string): set<nat> {
    set i: nat | i < |work| && IsActiveFor(work[i], user)
  }

  function OwnerRow(s: Support, project: string): Owner {
    if project in s.owners then s.owners[project] else s.fallback
  }

  /** Neither away nor at the project's limit. */
  predicate IsFree(s: Support, user: string, project: string) {
    user !in s.away && |OpenCases(s.cases, user)| + |ActiveTasks(s.work, user)| < OwnerRow(s, project).limit
  }

  lemma OneMoreCase(cases: seq<Case>, user: string)
    requires cases != []
    ensures var n := |cases| - 1;
      |OpenCases(cases, user)| == |OpenCases(cases[..n], user)| + if IsOpenFor(cases[n], user) then 1 else 0
  {
    hide IsOpenFor;
    var n := |cases| - 1;
    assert OpenCases(cases, user) == OpenCases(cases[..n], user) + if IsOpenFor(cases[n], user) then {n} else {};
  }

  lemma {:induction false} CasesAreCounted(cases: seq<Case>, user: string)
    ensures CaseLoad(cases, user) == |OpenCases(cases, user)|
  {
    if cases != [] {
      CasesAreCounted(cases[..|cases| - 1], user);
      OneMoreCase(cases, user);
      hide OpenCases;
    }
  }

  lemma OneMoreTask(work: seq<Work>, user: string)
    requires work != []
    ensures var n := |work| - 1;
      |ActiveTasks(work, user)| == |ActiveTasks(work[..n], user)| + if IsActiveFor(work[n], user) then 1 else 0
  {
    hide IsActiveFor;
    var n := |work| - 1;
    assert ActiveTasks(work, user) == ActiveTasks(work[..n], user) + if IsActiveFor(work[n], user) then {n} else {};
  }

  lemma {:induction false} TasksAreCounted(work: seq<Work>, user: string)
    ensures WorkLoad(work, user) == |ActiveTasks(work, user)|
  {
    if work != [] {
      TasksAreCounted(work[..|work| - 1], user);
      OneMoreTask(work, user);
      hide ActiveTasks;
    }
  }

  /** Main: available means free: present, and with fewer open tickets and active tasks than the limit. */
  lemma AvailableIsFree(s: Support, user: string, project: string)
    ensures Available(s, user, project) <==> IsFree(s, user, project)
  {
    CasesAreCounted(s.cases, user);
    TasksAreCounted(s.work, user);
  }

  // ----- who is asked first -----

  /** Somebody is entered there. */
  predicate IsPerson(user: string) {
    user != "" && user != "—"
  }

  /** The first of the listed users who is available. */
  function Pick(s: Support, project: string, users: seq<string>): Option<string> {
    if users == [] then None
    else if Available(s, users[0], project) then Some(users[0]) else Pick(s, project, users[1..])
  }

  lemma {:induction false} FirstIsPicked(s: Support, project: string, users: seq<string>, k: nat)
    requires k <= |users|
    ensures var r := FirstAvailable(s, project, users, k);
      r <= |users| && Pick(s, project, users[k..]) == if r < |users| then Some(users[r]) else None
    decreases |users| - k
  {
    hide Available;
    if k < |users| {
      assert users[k..][1..] == users[k + 1..];
      if !Available(s, users[k], project) {
        FirstIsPicked(s, project, users, k + 1);
      }
    }
  }

  lemma PickBehind(s: Support, project: string, entry: Option<string>, rest: seq<string>)
    ensures Pick(s, project, Present(entry) + rest) ==
      if entry.Some? && IsPerson(entry.value) && Available(s, entry.value, project) then entry else Pick(s, project, rest)
  {
    hide Available;
    var users := Present(entry) + rest;
    if entry.Some? && IsPerson(entry.value) {
      assert users[0] == entry.value && users[1..] == rest;
    } else {
      assert users == rest;
    }
  }

  lemma PickInOrder(s: Support, c: Case)
    ensures var o := OwnerOf(s, c.project);
      Pick(s, c.project, Candidates(s, c)) ==
        if c.area in o.areas && IsPerson(o.areas[c.area]) && Available(s, o.areas[c.area], c.project) then Some(o.areas[c.area])
        else if IsPerson(o.primary) && Available(s, o.primary, c.project) then Some(o.primary)
        else if c.project in s.onCall && IsPerson(s.onCall[c.project]) && Available(s, s.onCall[c.project], c.project)
        then Some(s.onCall[c.project])
        else if IsPerson(o.backup) && Available(s, o.backup, c.project) then Some(o.backup)
        else None
  {
    hide Available, Pick, Present, IsPerson;
    var o := OwnerOf(s, c.project);
    var area := if c.area in o.areas then Some(o.areas[c.area]) else None;
    var last := Present(Some(o.backup)) + [];
    var third := Present(Today(s, c.project)) + last;
    var second := Present(Some(o.primary)) + third;
    assert Candidates(s, c) == Present(area) + second;
    PickBehind(s, c.project, area, second);
    PickBehind(s, c.project, Some(o.primary), third);
    PickBehind(s, c.project, Today(s, c.project), last);
    PickBehind(s, c.project, Some(o.backup), []);
    PickNobody(s, c.project);
  }

  lemma PickNobody(s: Support, project: string)
    ensures Pick(s, project, []) == None
  {
  }

  /** Whom a direct ticket of this project and area goes to: the owner of the area, the primary developer, whoever is on
      call and the backup, in this order, the first who is entered and free; otherwise nobody of them. */
  function Chosen(s: Support, project: string, area: string): Option<string> {
    var o := OwnerRow(s, project);
    if area in o.areas && IsPerson(o.areas[area]) && IsFree(s, o.areas[area], project) then Some(o.areas[area])
    else if IsPerson(o.primary) && IsFree(s, o.primary, project) then Some(o.primary)
    else if project in s.onCall && IsPerson(s.onCall[project]) && IsFree(s, s.onCall[project], project)
    then Some(s.onCall[project])
    else if IsPerson(o.backup) && IsFree(s, o.backup, project) then Some(o.backup)
    else None
  }

  /** Main: a direct ticket goes to the chosen one, to be acknowledged in time, and to the senior at level 2 if there is
      none; any other ticket waits in the queue. */
  lemma RoutedTo(s: Support, c: Case)
    ensures var r, to := RoutedCase(s, c), Chosen(s, c.project, c.area);
      if c.kind !in s.directKinds then r == c.(status := NewTicket, assignedTo := None)
      else if to.Some? then
        r == c.(status := AutoAssigned, assignedTo := to, level := 0, ackDue := Some(s.clock + s.ackMinutes), log := r.log)
      else
        r == c.(status := Escalated, assignedTo := Some(OwnerRow(s, c.project).senior), level := 2, log := r.log)
  {
    var o, users := OwnerOf(s, c.project), Candidates(s, c);
    ChosenIsPicked(s, c);
    FirstIsPicked(s, c.project, users, 0);
    assert users[0..] == users;
    hide Candidates, Pick, Chosen, FirstAvailable;
  }

  lemma ChosenIsPicked(s: Support, c: Case)
    ensures Chosen(s, c.project, c.area) == Pick(s, c.project, Candidates(s, c))
  {
    hide Available, IsFree, Pick, Candidates, IsPerson;
    PickInOrder(s, c);
    forall u ensures Available(s, u, c.project) <==> IsFree(s, u, c.project) {
      AvailableIsFree(s, u, c.project);
    }
  }

  // ----- where an escalation goes -----

  /** Nobody has acknowledged it in time. */
  predicate IsLate(s: Support, c: Case) {
    && (c.status == AutoAssigned || c.status == Escalated)
    && c.ackDue.Some? && c.ackDue.value <= s.clock
  }

  /** Main: a late ticket goes from its assignee to the backup if free, else to whoever is on call, else to the senior; one
      that is late again goes to the senior and is waited for no longer; nothing else moves. */
  lemma EscalatedTo(s: Support, c: Case)
    ensures var r, o := EscalatedCase(s, c), OwnerRow(s, c.project);
      var onCall := if c.project in s.onCall then Some(s.onCall[c.project]) else None;
      if IsLate(s, c) && c.level == 0 then
        var to := if c.assignedTo != Some(o.backup) && IsFree(s, o.backup, c.project) then Some(o.backup)
          else if onCall != c.assignedTo then onCall else Some(o.senior);
        r == c.(level := 1, status := Escalated, assignedTo := to,
                ackDue := Some(s.clock + (s.escalationMinutes - s.ackMinutes)),
                log := c.log + [HandedOver(1, c.assignedTo, to)])
      else if IsLate(s, c) && c.level == 1 then
        r == c.(level := 2, assignedTo := Some(o.senior), ackDue := None,
                log := c.log + [HandedOver(2, c.assignedTo, Some(o.senior))])
      else r == c
  {
    hide Available, IsFree;
    AvailableIsFree(s, OwnerOf(s, c.project).backup, c.project);
  }
}
