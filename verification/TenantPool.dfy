/**
 The connection pool that stamps the tenant of the acquiring request on every connection it hands out.

 A request captures its stamp when it calls `connect`; the pool may hand it a connection much later,
 from whichever request released one.  Between hand-over and delivery the stamp runs and may fail.
 */
module TenantPool {
  import opened TenantStamp

  datatype Stage =
    | Waiting
    | Stamping(conn: nat)
    | Holding(conn: nat)
    | Refused
    | Released

  /** `context` is the tenant at the time of the call; `stamp` is the statement built from it then. */
  datatype Request = Request(context: Option<Context>, stamp: string, stage: Stage)

  datatype Lease = Idle | Leased(request: nat) | Destroyed

  /** `failed` records that a stamp failed on this connection. */
  datatype Conn = Conn(settings: Settings, lease: Lease, failed: bool)

  datatype Pool = Pool(requests: seq<Request>, conns: seq<Conn>)

  datatype Event =
    | Connect(context: Option<Context>)
    | Open(settings: Settings)
    | HandOver(r: nat, c: nat)
    | PoolError(r: nat)
    | StampDone(r: nat)
    | StampFailed(r: nat, left: Settings)
    | Release(r: nat, destroy: bool)

  const START := Pool([], [])

  predicate Enabled(p: Pool, e: Event) {
    match e
    case Connect(_) => true
    case Open(_) => true
    case HandOver(r, c) =>
      r < |p.requests| && p.requests[r].stage.Waiting? && c < |p.conns| && p.conns[c].lease.Idle?
    case PoolError(r) => r < |p.requests| && p.requests[r].stage.Waiting?
    case StampDone(r) =>
      && r < |p.requests| && p.requests[r].stage.Stamping? && p.requests[r].stage.conn < |p.conns|
      && Execute(p.conns[p.requests[r].stage.conn].settings, p.requests[r].stamp).Some?
    case StampFailed(r, _) =>
      r < |p.requests| && p.requests[r].stage.Stamping? && p.requests[r].stage.conn < |p.conns|
    case Release(r, _) =>
      r < |p.requests| && p.requests[r].stage.Holding? && p.requests[r].stage.conn < |p.conns|
  }

  function Step(useAppRole: bool, p: Pool, e: Event): Pool {
    if !Enabled(p, e) then p
    else
      match e
      case Connect(context) =>
        p.(requests := p.requests + [Request(context, StampStatement(context, useAppRole), Waiting)])
      case Open(settings) => p.(conns := p.conns + [Conn(settings, Idle, false)])
      case HandOver(r, c) =>
        Pool(p.requests[r := p.requests[r].(stage := Stamping(c))],
             p.conns[c := p.conns[c].(lease := Leased(r))])
      case PoolError(r) => p.(requests := p.requests[r := p.requests[r].(stage := Refused)])
      case StampDone(r) =>
        var c := p.requests[r].stage.conn;
        var settings := Execute(p.conns[c].settings, p.requests[r].stamp).value;
        Pool(p.requests[r := p.requests[r].(stage := Holding(c))],
             p.conns[c := p.conns[c].(settings := settings)])
      case StampFailed(r, left) =>
        var c := p.requests[r].stage.conn;
        Pool(p.requests[r := p.requests[r].(stage := Refused)],
             p.conns[c := Conn(left, Destroyed, true)])
      case Release(r, destroy) =>
        var c := p.requests[r].stage.conn;
        Pool(p.requests[r := p.requests[r].(stage := Released)],
             p.conns[c := p.conns[c].(lease := if destroy then Destroyed else Idle)])
  }

  function Run(useAppRole: bool, p: Pool, es: seq<Event>): Pool
    decreases |es|
  {
    if es == [] then p else Run(useAppRole, Step(useAppRole, p, es[0]), es[1..])
  }

  // ------------------------------------------------------------------ the invariant

  /** The settings a request must find on its connection: its own tenant and user, in the role that row-level security
      applies to. */
  predicate Carries(settings: Settings, context: Option<Context>, useAppRole: bool) {
    && Shows(settings.tenant, OrganizationOf(context)) && Shows(settings.user, UserOf(context))
    && (useAppRole ==> settings.role == "ashniva_app")
  }

  predicate RequestOk(useAppRole: bool, p: Pool, r: nat)
    requires r < |p.requests|
  {
    var q := p.requests[r];
    && q.stamp == StampStatement(q.context, useAppRole)
    && (q.stage.Stamping? || q.stage.Holding? ==>
          q.stage.conn < |p.conns| && p.conns[q.stage.conn].lease == Leased(r))
    && (q.stage.Holding? ==> Carries(p.conns[q.stage.conn].settings, q.context, useAppRole))
  }

  predicate Inv(useAppRole: bool, p: Pool) {
    && (forall r :: 0 <= r < |p.requests| ==> RequestOk(useAppRole, p, r))
    && (forall c :: 0 <= c < |p.conns| && p.conns[c].failed ==> p.conns[c].lease.Destroyed?)
  }

  lemma StampDoneCarries(useAppRole: bool, settings: Settings, context: Option<Context>)
    ensures var s := Execute(settings, StampStatement(context, useAppRole));
      s.Some? && Carries(s.value, context, useAppRole)
  {
    StampSetsContext(settings, context, useAppRole);
  }

  lemma StepKeepsInv(useAppRole: bool, p: Pool, e: Event)
    requires Inv(useAppRole, p)
    ensures Inv(useAppRole, Step(useAppRole, p, e))
  {
    hide StampStatement, Execute, Carries;
    var p' := Step(useAppRole, p, e);
    if (e.StampDone? || e.StampFailed? || e.Release?) && Enabled(p, e) {
      assert RequestOk(useAppRole, p, e.r);
    }
    forall r | 0 <= r < |p'.requests| ensures RequestOk(useAppRole, p', r) {
      if r < |p.requests| {
        assert RequestOk(useAppRole, p, r);
      }
      if e.StampDone? && Enabled(p, e) && e.r == r {
        StampDoneCarries(useAppRole, p.conns[p.requests[r].stage.conn].settings, p.requests[r].context);
      }
    }
  }

  lemma {:induction false} InvAlways(useAppRole: bool, p: Pool, es: seq<Event>)
    requires Inv(useAppRole, p)
    ensures Inv(useAppRole, Run(useAppRole, p, es))
    decreases |es|
  {
    if es != [] {
      StepKeepsInv(useAppRole, p, es[0]);
      InvAlways(useAppRole, Step(useAppRole, p, es[0]), es[1..]);
    }
  }

  predicate HasConn(q: Request) {
    q.stage.Holding? || q.stage.Stamping?
  }

  /** Over every interleaving, a request that holds a connection holds it alone, finds on it exactly the
      tenant and user captured when it called `connect`, and the connection never failed a stamp. */
  lemma HolderFindsItsTenant(useAppRole: bool, es: seq<Event>, r: nat)
    requires var p := Run(useAppRole, START, es); r < |p.requests| && p.requests[r].stage.Holding?
    ensures var p := Run(useAppRole, START, es);
      var c := p.requests[r].stage.conn;
      && c < |p.conns| && !p.conns[c].failed
      && Carries(p.conns[c].settings, p.requests[r].context, useAppRole)
      && forall r' :: (0 <= r' < |p.requests| && r' != r && HasConn(p.requests[r'])) ==> p.requests[r'].stage.conn != c
  {
    InvAlways(useAppRole, START, es);
    var p := Run(useAppRole, START, es);
    assert RequestOk(useAppRole, p, r);
    forall r' | 0 <= r' < |p.requests| && r' != r && HasConn(p.requests[r'])
      ensures p.requests[r'].stage.conn != p.requests[r].stage.conn
    {
      assert RequestOk(useAppRole, p, r');
    }
  }

  /** Main: two holders with well-formed organisation ids both find a tenant, and the same one exactly when the ids differ
      at most in letter case. */
  lemma HoldersAreKeptApart(useAppRole: bool, es: seq<Event>, r: nat, q: nat, a: string, b: string)
    requires var p := Run(useAppRole, START, es);
      && r < |p.requests| && p.requests[r].stage.Holding? && OrganizationOf(p.requests[r].context) == Some(a)
      && q < |p.requests| && p.requests[q].stage.Holding? && OrganizationOf(p.requests[q].context) == Some(b)
    requires IsWellFormed(a) && IsWellFormed(b)
    ensures var p := Run(useAppRole, START, es);
      var c, d := p.requests[r].stage.conn, p.requests[q].stage.conn;
      && c < |p.conns| && d < |p.conns|
      && p.conns[c].settings.tenant != "" && p.conns[d].settings.tenant != ""
      && (p.conns[c].settings.tenant == p.conns[d].settings.tenant <==> SameButCase(a, b))
  {
    hide Run, IsWellFormed, Shows, SameButCase, OrganizationOf, UserOf;
    HolderFindsItsTenant(useAppRole, es, r);
    HolderFindsItsTenant(useAppRole, es, q);
    var p := Run(useAppRole, START, es);
    SettingsTellIdsApart(p.conns[p.requests[r].stage.conn].settings.tenant, a, p.conns[p.requests[q].stage.conn].settings.tenant, b);
  }

  /** A stamp never fails to parse: the database can only refuse it for reasons of its own. */
  lemma StampAlwaysRuns(useAppRole: bool, es: seq<Event>, r: nat)
    requires var p := Run(useAppRole, START, es); r < |p.requests| && p.requests[r].stage.Stamping?
    ensures Enabled(Run(useAppRole, START, es), StampDone(r))
  {
    InvAlways(useAppRole, START, es);
    var p := Run(useAppRole, START, es);
    assert RequestOk(useAppRole, p, r);
    StampDoneCarries(useAppRole, p.conns[p.requests[r].stage.conn].settings, p.requests[r].context);
  }

  /** Whenever request `r` holds a connection, it carries the tenant and user of `context`. */
  predicate Serves(useAppRole: bool, p: Pool, r: nat, context: Option<Context>) {
    && r < |p.requests|
    && (p.requests[r].stage.Holding? ==>
          p.requests[r].stage.conn < |p.conns|
          && Carries(p.conns[p.requests[r].stage.conn].settings, context, useAppRole))
  }

  /** No event touches what a request captured: neither its tenant nor its statement. */
  lemma {:induction false} CapturedIsKept(useAppRole: bool, p: Pool, es: seq<Event>, r: nat)
    requires r < |p.requests|
    ensures var q := Run(useAppRole, p, es);
      r < |q.requests| && q.requests[r].context == p.requests[r].context && q.requests[r].stamp == p.requests[r].stamp
    decreases |es|
  {
    hide StampStatement, Execute;
    if es != [] {
      CapturedIsKept(useAppRole, Step(useAppRole, p, es[0]), es[1..], r);
    }
  }

  /** Whatever requests, releases and failures follow a call of `connect`, the connection it is given in
      the end carries the caller's own tenant and user. */
  lemma CallerIsServed(useAppRole: bool, p: Pool, es: seq<Event>, r: nat)
    requires Inv(useAppRole, p) && r < |p.requests|
    ensures Serves(useAppRole, Run(useAppRole, p, es), r, p.requests[r].context)
  {
    hide StampStatement, Execute, Carries, Step;
    InvAlways(useAppRole, p, es);
    CapturedIsKept(useAppRole, p, es, r);
    assert RequestOk(useAppRole, Run(useAppRole, p, es), r);
  }

  // ------------------------------------------------------------------ the pool object

  class TenantAwarePool {
    const useAppRole: bool
    var requests: seq<Request>
    var conns: seq<Conn>

    constructor (useAppRole: bool)
      ensures this.useAppRole == useAppRole && Snapshot() == START
    {
      this.useAppRole := useAppRole;
      requests := [];
      conns := [];
    }

    function Snapshot(): Pool
      reads this
    {
      Pool(requests, conns)
    }

    /** The synchronous part of `connect`: the tenant is read now, in the caller's own context. */
    method Connect(context: Option<Context>) returns (r: nat)
      requires Inv(useAppRole, Snapshot())
      modifies this
      ensures Snapshot() == Step(useAppRole, old(Snapshot()), Event.Connect(context))
      ensures Inv(useAppRole, Snapshot())
      ensures r < |requests| && requests[..r] == old(requests) && conns == old(conns)
      ensures forall es :: Serves(useAppRole, Run(useAppRole, Snapshot(), es), r, context)
    {
      hide StampStatement, Execute, Carries, Serves, Run;
      StepKeepsInv(useAppRole, Snapshot(), Event.Connect(context));
      r := |requests|;
      var stamp := StampStatement(context, useAppRole);
      requests := requests + [Request(context, stamp, Waiting)];
      forall es ensures Serves(useAppRole, Run(useAppRole, Snapshot(), es), r, context) {
        CallerIsServed(useAppRole, Snapshot(), es, r);
      }
    }

    /** The pool hands connection `c` to request `r`, the stamp runs, and the request gets the connection
        or, when the stamp failed, the connection is destroyed and the request gets the error. */
    method HandOver(r: nat, c: nat, stampWorks: bool, left: Settings) returns (granted: bool)
      requires Inv(useAppRole, Snapshot()) && Enabled(Snapshot(), Event.HandOver(r, c))
      modifies this
      ensures granted == stampWorks
      ensures Snapshot() == Run(useAppRole, old(Snapshot()),
                                [Event.HandOver(r, c), if stampWorks then StampDone(r) else StampFailed(r, left)])
      ensures Inv(useAppRole, Snapshot())
      ensures r < |requests| && c < |conns|
      ensures granted ==> requests[r].stage == Holding(c) && Carries(conns[c].settings, requests[r].context, useAppRole)
      ensures !granted ==> requests[r].stage == Refused && conns[c].lease == Destroyed
    {
      hide StampStatement, Execute, Carries;
      ghost var e1 := Event.HandOver(r, c);
      ghost var e2 := if stampWorks then StampDone(r) else StampFailed(r, left);
      ghost var p0 := Snapshot();
      StepKeepsInv(useAppRole, p0, e1);
      ghost var p1 := Step(useAppRole, p0, e1);
      assert RequestOk(useAppRole, p1, r);
      StampDoneCarries(useAppRole, conns[c].settings, requests[r].context);
      requests := requests[r := requests[r].(stage := Stamping(c))];
      conns := conns[c := conns[c].(lease := Leased(r))];
      if stampWorks {
        var settings := Execute(conns[c].settings, requests[r].stamp);
        requests := requests[r := requests[r].(stage := Holding(c))];
        conns := conns[c := conns[c].(settings := settings.value)];
      } else {
        conns := conns[c := Conn(left, Destroyed, true)];
        requests := requests[r := requests[r].(stage := Refused)];
      }
      granted := stampWorks;
      StepKeepsInv(useAppRole, p1, e2);
      assert [e1, e2][1..] == [e2] && [e2][1..] == [];
      assert Run(useAppRole, p1, [e2]) == Run(useAppRole, Step(useAppRole, p1, e2), []);
      assert Snapshot() == Step(useAppRole, p1, e2);
    }

    method Release(r: nat, destroy: bool)
      requires Inv(useAppRole, Snapshot()) && Enabled(Snapshot(), Event.Release(r, destroy))
      modifies this
      ensures Snapshot() == Step(useAppRole, old(Snapshot()), Event.Release(r, destroy))
      ensures Inv(useAppRole, Snapshot())
    {
      StepKeepsInv(useAppRole, Snapshot(), Event.Release(r, destroy));
      var c := requests[r].stage.conn;
      requests := requests[r := requests[r].(stage := Released)];
      conns := conns[c := conns[c].(lease := if destroy then Destroyed else Idle)];
    }
  }
}
