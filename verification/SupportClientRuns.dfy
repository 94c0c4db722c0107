/**
 All interleavings of callers, mints, resets and server work around one support client.

 Every `await` of the source is a boundary between two events.  A mint's `.then` (which stores the
 session) and its `.finally` (which clears the pending slot) are separate events; callers that wait
 for the mint resume only after the second one.
 */
module SupportClientRuns {
  import opened SupportClient

  /** A mint: running, its `.then` done or skipped, and finally settled. */
  datatype Mint = Running | Delivered(session: Session) | Rejected | Resolved(session: Session) | Failed

  datatype Request = Request(body: string, key: Option<string>)

  datatype Stage =
    | Fresh
    | Waiting(mint: nat, retry: bool)
    | Ready(issued: Issued, retry: bool)
    | Sent(retry: bool)
    | Closed

  /** One `withSession` call.  `used` lists the mints whose tokens it has sent; `refusedAt` is the number
      of mints started so far when a 401 came back. */
  datatype Call = Call(request: Request, stage: Stage, used: seq<nat>, refusedAt: Option<nat>)

  /** One request on the wire. */
  datatype Wire = Wire(call: nat, request: Request, mint: nat)

  datatype World = World(
    mem: Memory,
    mints: seq<Mint>,
    calls: seq<Call>,
    wire: seq<Wire>,
    served: set<nat>,               // positions of `wire` the server has processed
    tickets: seq<Option<string>>,   // the idempotency keys of the tickets made, in order
    resets: nat)

  datatype Event =
    | NewCall(request: Request)
    | Begin(c: nat, now: int, throws: bool)
    | Deliver(m: nat, session: Session)
    | Reject(m: nat)
    | Settle(m: nat)
    | Resume(c: nat)
    | Send(c: nat)
    | Respond(c: nat, status: Option<int>, now: int, throws: bool)
    | Serve(i: nat)
    | HostReset

  const START := World(EMPTY, [], [], [], {}, [], 0)

  predicate InFlight(m: Mint) {
    m.Running? || m.Delivered? || m.Rejected?
  }

  predicate Enabled(w: World, e: Event) {
    match e
    case NewCall(_) => true
    case Begin(c, _, _) => c < |w.calls| && w.calls[c].stage.Fresh?
    case Deliver(m, _) => m < |w.mints| && w.mints[m].Running?
    case Reject(m) => m < |w.mints| && w.mints[m].Running?
    case Settle(m) => m < |w.mints| && (w.mints[m].Delivered? || w.mints[m].Rejected?)
    case Resume(c) =>
      && c < |w.calls| && w.calls[c].stage.Waiting?
      && w.calls[c].stage.mint < |w.mints| && !InFlight(w.mints[w.calls[c].stage.mint])
    case Send(c) => c < |w.calls| && w.calls[c].stage.Ready?
    case Respond(c, _, _, _) => c < |w.calls| && w.calls[c].stage.Sent?
    case Serve(i) => i < |w.wire| && i !in w.served
    case HostReset => true
  }

  function WithStage(w: World, c: nat, stage: Stage): World
    requires c < |w.calls|
  {
    w.(calls := w.calls[c := w.calls[c].(stage := stage)])
  }

  /** Call `c` runs `session()` on the memory. */
  function Asking(w: World, c: nat, now: int, lead: int, throws: bool, retry: bool): World
    requires c < |w.calls|
  {
    var (mem, answer) := AskSession(w.mem, now, lead, |w.mints|, throws);
    var w' := w.(mem := mem);
    match answer
    case Cached(issued) => WithStage(w', c, Ready(issued, retry))
    case ProviderThrew => WithStage(w', c, Closed)
    case Awaiting(m) =>
      WithStage(if m == |w.mints| then w'.(mints := w.mints + [Running]) else w', c, Waiting(m, retry))
  }

  function Dropped(w: World): World {
    w.(mem := EMPTY, resets := w.resets + 1)
  }

  /** The server keeps one ticket per idempotency key. */
  function Filed(tickets: seq<Option<string>>, key: Option<string>): seq<Option<string>> {
    if key.Some? && key in tickets then tickets else tickets + [key]
  }

  function Step(lead: int, w: World, e: Event): World {
    if !Enabled(w, e) then w
    else
      match e
      case NewCall(request) => w.(calls := w.calls + [Call(request, Fresh, [], None)])
      case Begin(c, now, throws) => Asking(w, c, now, lead, throws, false)
      case Deliver(m, session) =>
        w.(mem := w.mem.(current := Some(Issued(m, session))), mints := w.mints[m := Delivered(session)])
      case Reject(m) => w.(mints := w.mints[m := Rejected])
      case Settle(m) =>
        w.(mem := w.mem.(pending := None),
           mints := w.mints[m := if w.mints[m].Delivered? then Resolved(w.mints[m].session) else Failed])
      case Resume(c) =>
        var stage := w.calls[c].stage;
        (match w.mints[stage.mint]
         case Resolved(session) => WithStage(w, c, Ready(Issued(stage.mint, session), stage.retry))
         case _ => WithStage(w, c, Closed))
      case Send(c) =>
        var call := w.calls[c];
        var mint := call.stage.issued.mint;
        w.(calls := w.calls[c := call.(stage := Sent(call.stage.retry), used := call.used + [mint])],
           wire := w.wire + [Wire(c, call.request, mint)])
      case Respond(c, status, now, throws) =>
        if status == Some(401) && !w.calls[c].stage.retry then
          var w' := Dropped(w.(calls := w.calls[c := w.calls[c].(refusedAt := Some(|w.mints|))]));
          Asking(w', c, now, lead, throws, true)
        else WithStage(w, c, Closed)
      case Serve(i) => w.(served := w.served + {i}, tickets := Filed(w.tickets, w.wire[i].request.key))
      case HostReset => Dropped(w)
  }

  function Run(lead: int, w: World, es: seq<Event>): World
    decreases |es|
  {
    if es == [] then w else Run(lead, Step(lead, w, es[0]), es[1..])
  }

  // ------------------------------------------------------------------ single flight

  function Flying(mints: seq<Mint>): nat {
    if mints == [] then 0
    else Flying(mints[..|mints| - 1]) + (if InFlight(mints[|mints| - 1]) then 1 else 0)
  }

  lemma {:induction false} FlyingUpdate(mints: seq<Mint>, m: nat, x: Mint)
    requires m < |mints|
    ensures Flying(mints[m := x])
            == Flying(mints) - (if InFlight(mints[m]) then 1 else 0) + (if InFlight(x) then 1 else 0)
  {
    var n := |mints| - 1;
    if m < n {
      FlyingUpdate(mints[..n], m, x);
      assert mints[m := x][..n] == mints[..n][m := x];
    } else {
      assert mints[m := x][..n] == mints[..n];
    }
  }

  lemma FlyingMore(mints: seq<Mint>)
    ensures Flying(mints + [Running]) == Flying(mints) + 1
  {
    assert (mints + [Running])[..|mints|] == mints;
  }

  /** The mints under way never outnumber the resets, plus the pending one; and what is pending is
      under way. */
  predicate SingleFlight(w: World) {
    && Flying(w.mints) <= w.resets + (if w.mem.pending.Some? then 1 else 0)
    && (w.mem.pending.Some? ==> w.mem.pending.value < |w.mints| && InFlight(w.mints[w.mem.pending.value]))
  }

  lemma AskingKeepsFlight(w: World, c: nat, now: int, lead: int, throws: bool, retry: bool)
    requires SingleFlight(w) && c < |w.calls|
    ensures SingleFlight(Asking(w, c, now, lead, throws, retry))
  {
    FlyingMore(w.mints);
  }

  lemma StepKeepsFlight(lead: int, w: World, e: Event)
    requires SingleFlight(w)
    ensures SingleFlight(Step(lead, w, e))
  {
    if Enabled(w, e) {
      match e
      case Begin(c, now, throws) => AskingKeepsFlight(w, c, now, lead, throws, false);
      case Deliver(m, session) => FlyingUpdate(w.mints, m, Delivered(session));
      case Reject(m) => FlyingUpdate(w.mints, m, Rejected);
      case Settle(m) =>
        FlyingUpdate(w.mints, m, if w.mints[m].Delivered? then Resolved(w.mints[m].session) else Failed);
      case Respond(c, status, now, throws) =>
        if status == Some(401) && !w.calls[c].stage.retry {
          var w' := Dropped(w.(calls := w.calls[c := w.calls[c].(refusedAt := Some(|w.mints|))]));
          AskingKeepsFlight(w', c, now, lead, throws, true);
        }
      case _ =>
    }
  }

  /** Over every interleaving, at most one mint per reset, and one more, is under way at a time. */
  lemma {:induction false} FlightIsBounded(lead: int, w: World, es: seq<Event>)
    requires SingleFlight(w)
    ensures SingleFlight(Run(lead, w, es))
    decreases |es|
  {
    if es != [] {
      StepKeepsFlight(lead, w, es[0]);
      FlightIsBounded(lead, Step(lead, w, es[0]), es[1..]);
    }
  }

  lemma FlightFromStart(lead: int, es: seq<Event>)
    ensures SingleFlight(Run(lead, START, es))
    ensures var w := Run(lead, START, es); w.resets == 0 ==> Flying(w.mints) <= 1
  {
    FlightIsBounded(lead, START, es);
  }

  // ------------------------------------------------------------------ one call at a time

  /** What is known of a call in each stage: its first run needs no 401, its second comes only after one
      and only with a mint started since. */
  predicate CallOk(call: Call, minted: nat) {
    var n, r := |call.used|, call.refusedAt;
    match call.stage
    case Fresh => n == 0 && r.None?
    case Waiting(m, retry) => m < minted && (if retry then n == 1 && r.Some? && r.value <= m else n == 0 && r.None?)
    case Ready(i, retry) => if retry then n == 1 && r.Some? && r.value <= i.mint else n == 0 && r.None?
    case Sent(retry) => if retry then n == 2 && r.Some? && r.value <= call.used[1] else n == 1 && r.None?
    case Closed => n <= 2 && (n == 2 ==> r.Some? && r.value <= call.used[1])
  }

  predicate CallsOk(w: World) {
    && (w.mem.pending.Some? ==> w.mem.pending.value < |w.mints|)
    && forall c :: 0 <= c < |w.calls| ==> CallOk(w.calls[c], |w.mints|)
  }

  lemma AskingKeepsCalls(w: World, c: nat, now: int, lead: int, throws: bool, retry: bool)
    requires c < |w.calls| && (w.mem.pending.Some? ==> w.mem.pending.value < |w.mints|)
    requires forall d :: 0 <= d < |w.calls| && d != c ==> CallOk(w.calls[d], |w.mints|)
    requires |w.calls[c].used| == if retry then 1 else 0
    requires if retry then w.calls[c].refusedAt == Some(|w.mints|) && w.mem == EMPTY else w.calls[c].refusedAt.None?
    ensures CallsOk(Asking(w, c, now, lead, throws, retry))
  {
    var w' := Asking(w, c, now, lead, throws, retry);
    forall d | 0 <= d < |w.calls| ensures CallOk(w'.calls[d], |w'.mints|) {
      if d != c {
        assert w'.calls[d] == w.calls[d];
        assert CallOk(w.calls[d], |w.mints|);
      }
    }
  }

  /** One call moves on; no mint is forgotten. */
  lemma OneCallMoves(w: World, w': World, c: nat, call: Call)
    requires CallsOk(w) && c < |w.calls|
    requires w'.calls == w.calls[c := call] && w'.mints == w.mints && w'.mem == w.mem
    requires CallOk(call, |w.mints|)
    ensures CallsOk(w')
  {
  }

  lemma RespondKeepsCalls(lead: int, w: World, c: nat, status: Option<int>, now: int, throws: bool)
    requires CallsOk(w) && Enabled(w, Respond(c, status, now, throws))
    ensures CallsOk(Step(lead, w, Respond(c, status, now, throws)))
  {
    assert CallOk(w.calls[c], |w.mints|);
    var w1 := Step(lead, w, Respond(c, status, now, throws));
    if status == Some(401) && !w.calls[c].stage.retry {
      var w' := Dropped(w.(calls := w.calls[c := w.calls[c].(refusedAt := Some(|w.mints|))]));
      AskingKeepsCalls(w', c, now, lead, throws, true);
    } else {
      OneCallMoves(w, w1, c, w1.calls[c]);
    }
  }

  lemma StepKeepsCalls(lead: int, w: World, e: Event)
    requires CallsOk(w)
    ensures CallsOk(Step(lead, w, e))
  {
    if Enabled(w, e) {
      var w' := Step(lead, w, e);
      match e
      case Begin(c, now, throws) =>
        assert CallOk(w.calls[c], |w.mints|);
        AskingKeepsCalls(w, c, now, lead, throws, false);
      case Respond(c, status, now, throws) => RespondKeepsCalls(lead, w, c, status, now, throws);
      case Resume(c) =>
        assert CallOk(w.calls[c], |w.mints|);
        OneCallMoves(w, w', c, w'.calls[c]);
      case Send(c) =>
        assert CallOk(w.calls[c], |w.mints|);
        OneCallMoves(w, w', c, w'.calls[c]);
      case _ =>
    }
  }

  /** Every request on the wire is the one its call was made with, so both attempts of a submission
      carry the same body and the same key. */
  predicate WireOk(w: World) {
    forall i :: 0 <= i < |w.wire| ==>
      w.wire[i].call < |w.calls| && w.wire[i].request == w.calls[w.wire[i].call].request
  }

  lemma StepKeepsWire(lead: int, w: World, e: Event)
    requires WireOk(w)
    ensures WireOk(Step(lead, w, e))
    ensures |Step(lead, w, e).calls| >= |w.calls|
    ensures forall c :: 0 <= c < |w.calls| ==> Step(lead, w, e).calls[c].request == w.calls[c].request
  {
  }

  /** No idempotency key has two tickets. */
  predicate OncePerKey(tickets: seq<Option<string>>) {
    forall i, j :: 0 <= i < j < |tickets| && tickets[i].Some? ==> tickets[i] != tickets[j]
  }

  predicate Safe(w: World) {
    CallsOk(w) && WireOk(w) && OncePerKey(w.tickets)
  }

  lemma {:induction false} SafeAlways(lead: int, w: World, es: seq<Event>)
    requires Safe(w)
    ensures Safe(Run(lead, w, es))
    decreases |es|
  {
    if es != [] {
      StepKeepsCalls(lead, w, es[0]);
      StepKeepsWire(lead, w, es[0]);
      SafeAlways(lead, Step(lead, w, es[0]), es[1..]);
    }
  }

  /** Over every interleaving each call runs at most twice, the second time only after a 401 and with
      a token from a mint started since, with the request of the first; and a key makes at most one
      ticket. */
  lemma CallsFromStart(lead: int, es: seq<Event>)
    ensures var w := Run(lead, START, es);
      && (forall c :: 0 <= c < |w.calls| ==>
            && |w.calls[c].used| <= 2
            && (|w.calls[c].used| == 2 ==>
                  w.calls[c].refusedAt.Some? && w.calls[c].refusedAt.value <= w.calls[c].used[1]))
      && (forall i, j :: 0 <= i < j < |w.wire| && w.wire[i].call == w.wire[j].call ==>
            w.wire[i].request == w.wire[j].request)
      && OncePerKey(w.tickets)
  {
    SafeAlways(lead, START, es);
    var w := Run(lead, START, es);
    forall c | 0 <= c < |w.calls|
      ensures |w.calls[c].used| <= 2
      ensures |w.calls[c].used| == 2 ==>
        w.calls[c].refusedAt.Some? && w.calls[c].refusedAt.value <= w.calls[c].used[1]
    {
      assert CallOk(w.calls[c], |w.mints|);
    }
  }

  // ------------------------------------------------------------------ where a session comes from

  /** Mint `i.mint` delivered exactly this session. */
  predicate FromMint(mints: seq<Mint>, i: Issued) {
    && i.mint < |mints|
    && (mints[i.mint] == Delivered(i.session) || mints[i.mint] == Resolved(i.session))
  }

  predicate SessionsAreMinted(w: World) {
    && (w.mem.current.Some? ==> FromMint(w.mints, w.mem.current.value))
    && forall c :: 0 <= c < |w.calls| && w.calls[c].stage.Ready? ==> FromMint(w.mints, w.calls[c].stage.issued)
  }

  /** A delivered session stays delivered. */
  lemma StepKeepsMinted(lead: int, w: World, e: Event, i: Issued)
    requires FromMint(w.mints, i)
    ensures FromMint(Step(lead, w, e).mints, i)
  {
  }

  lemma ReadyIsMinted(lead: int, w: World, e: Event, c: nat)
    requires SessionsAreMinted(w)
    requires var calls := Step(lead, w, e).calls; c < |calls| && calls[c].stage.Ready?
    ensures var w' := Step(lead, w, e); FromMint(w'.mints, w'.calls[c].stage.issued)
  {
    if c < |w.calls| && w.calls[c].stage.Ready? {
      StepKeepsMinted(lead, w, e, w.calls[c].stage.issued);
    }
  }

  lemma CurrentIsMinted(lead: int, w: World, e: Event)
    requires SessionsAreMinted(w)
    ensures var w' := Step(lead, w, e); w'.mem.current.Some? ==> FromMint(w'.mints, w'.mem.current.value)
  {
    if w.mem.current.Some? {
      StepKeepsMinted(lead, w, e, w.mem.current.value);
    }
  }

  lemma StepKeepsSessions(lead: int, w: World, e: Event)
    requires SessionsAreMinted(w)
    ensures SessionsAreMinted(Step(lead, w, e))
  {
    hide Step, FromMint;
    CurrentIsMinted(lead, w, e);
    var w' := Step(lead, w, e);
    forall c | 0 <= c < |w'.calls| && w'.calls[c].stage.Ready? ensures FromMint(w'.mints, w'.calls[c].stage.issued) {
      ReadyIsMinted(lead, w, e, c);
    }
  }

  lemma {:induction false} SessionsAlwaysMinted(lead: int, w: World, es: seq<Event>)
    requires SessionsAreMinted(w)
    ensures SessionsAreMinted(Run(lead, w, es))
    decreases |es|
  {
    if es != [] {
      StepKeepsSessions(lead, w, es[0]);
      SessionsAlwaysMinted(lead, Step(lead, w, es[0]), es[1..]);
    }
  }

  /** Over every interleaving, a call comes by a session in two ways only: from the cache, on its first
      attempt and with more than the lead time left, or from the mint it waited for.  Either way some
      mint really delivered that session. */
  lemma SessionHandedOut(lead: int, es: seq<Event>, e: Event, c: nat)
    requires var w := Run(lead, START, es);
      c < |w.calls| && !w.calls[c].stage.Ready? && Step(lead, w, e).calls[c].stage.Ready?
    ensures var w := Run(lead, START, es);
      var stage := Step(lead, w, e).calls[c].stage;
      && FromMint(w.mints, stage.issued)
      && (|| (&& e.Begin? && e.c == c && !stage.retry
              && w.mem.current == Some(stage.issued) && Usable(w.mem, e.now, lead))
          || (&& e == Resume(c) && w.calls[c].stage == Waiting(stage.issued.mint, stage.retry)
              && w.mints[stage.issued.mint] == Resolved(stage.issued.session)))
  {
    hide Run;
    SessionsAlwaysMinted(lead, START, es);
  }

  // ------------------------------------------------------------------ without a key, and after a reset

  /** When the server processes both attempts of one submission, it makes at most one ticket exactly
      when the submission carried an idempotency key. */
  lemma OneTicketExactlyWithKey(lead: int, w: World, i: nat, j: nat)
    requires WireOk(w) && i != j && Enabled(w, Serve(i)) && Enabled(w, Serve(j))
    requires w.wire[i].call == w.wire[j].call
    ensures var w' := Run(lead, w, [Serve(i), Serve(j)]);
      && (|w'.tickets| <= |w.tickets| + 1 <==> w.wire[i].request.key.Some?)
      && w.wire[i].request.key in w'.tickets && |w'.tickets| >= |w.tickets| && w'.tickets[..|w.tickets|] == w.tickets
  {
    var es := [Serve(i), Serve(j)];
    var w1 := Step(lead, w, Serve(i));
    assert es[1..] == [Serve(j)] && [Serve(j)][1..] == [];
    assert Run(lead, w1, [Serve(j)]) == Run(lead, Step(lead, w1, Serve(j)), []);
    assert w.wire[i].request == w.wire[j].request;
  }

  predicate NoneRunning(w: World) {
    forall m :: 0 <= m < |w.mints| ==> !w.mints[m].Running?
  }

  /** After resetting `w` and then `es`, nothing minted before the reset is cached. */
  predicate ResetHolds(lead: int, w: World, es: seq<Event>) {
    var w' := Run(lead, Step(lead, w, HostReset), es);
    w'.mem.current.Some? ==> w'.mem.current.value.mint >= |w.mints|
  }

  lemma {:induction false} OldMintsStaySettled(lead: int, w: World, n: nat, es: seq<Event>)
    requires n <= |w.mints| && forall m :: 0 <= m < n ==> !w.mints[m].Running?
    requires w.mem.current.Some? ==> w.mem.current.value.mint >= n
    ensures var w' := Run(lead, w, es); w'.mem.current.Some? ==> w'.mem.current.value.mint >= n
    decreases |es|
  {
    if es != [] {
      OldMintsStaySettled(lead, Step(lead, w, es[0]), n, es[1..]);
    }
  }

  /** `reset()` promises that the next call mints afresh.  That holds for every continuation exactly
      when no mint is still running at the reset: a running one stores its session afterwards. */
  lemma ResetHoldsExactly(lead: int, w: World, s: Session)
    ensures NoneRunning(w) <==> forall es :: ResetHolds(lead, w, es)
  {
    if NoneRunning(w) {
      forall es ensures ResetHolds(lead, w, es) {
        OldMintsStaySettled(lead, Step(lead, w, HostReset), |w.mints|, es);
      }
    } else {
      var m :| 0 <= m < |w.mints| && w.mints[m].Running?;
      var es := [Deliver(m, s)];
      var w' := Step(lead, w, HostReset);
      assert Run(lead, w', es) == Step(lead, w', es[0]) by {
        assert es[1..] == [];
      }
      assert !ResetHolds(lead, w, es);
    }
  }
}
