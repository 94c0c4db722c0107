/**
 The headless support widget: its state machine, its listeners, and every interleaving of pending
 `open` and `submit` calls with `reset`.
 */
module SupportWidget {

  datatype Option<+T> = None | Some(value: T)

  datatype Capabilities = Capabilities(canRaiseTicket: bool, unavailableReason: Option<string>)

  datatype State =
    | Idle
    | Loading
    | Ready(capabilities: Capabilities)
    | Submitting(capabilities: Capabilities)
    | Submitted(capabilities: Capabilities, ticket: string)
    | Unavailable(reason: string)
    | Offline(reason: string)
    | Error(reason: string, kept: Option<Capabilities>)

  /** What a failed call throws: a request error with or without a status, a validation error, another
      error, or something that is no error at all. */
  datatype Fault =
    | RequestFault(status: Option<int>, message: string)
    | ValidationFault(message: string)
    | OtherFault(message: string)
    | NotAnError

  const CLOSED := "Support is not open for this product"
  const UNREACHABLE := "Support could not be reached. Please try again."
  const WRONG := "Something went wrong"

  /** `currentCapabilities`: the capabilities the state carries, if it carries any. */
  function Current(state: State): Option<Capabilities> {
    match state
    case Ready(c) => Some(c)
    case Submitting(c) => Some(c)
    case Submitted(c, _) => Some(c)
    case Error(_, kept) => kept
    case _ => None
  }

  function FailureState(fault: Fault, capabilities: Option<Capabilities>): State {
    match fault
    case RequestFault(None, _) => Offline(UNREACHABLE)
    case RequestFault(Some(status), message) =>
      if status == 403 then Unavailable(message) else Error(message, capabilities)
    case ValidationFault(message) => Offline(message)
    case OtherFault(message) => Offline(message)
    case NotAnError => Error(WRONG, capabilities)
  }

  datatype Opened = Loaded(capabilities: Capabilities) | OpenFailed(fault: Fault)
  datatype Filed = Accepted(ticket: string) | SubmitFailed(fault: Fault)

  function AfterOpen(result: Opened): State {
    match result
    case Loaded(c) =>
      if c.canRaiseTicket then Ready(c)
      else Unavailable(if c.unavailableReason.Some? then c.unavailableReason.value else CLOSED)
    case OpenFailed(fault) => FailureState(fault, None)
  }

  function AfterSubmit(capabilities: Capabilities, result: Filed): State {
    match result
    case Accepted(ticket) => Submitted(capabilities, ticket)
    case SubmitFailed(fault) =>
      if fault.ValidationFault? then Ready(capabilities) else FailureState(fault, Some(capabilities))
  }

  function AfterReset(state: State): State {
    if Current(state).Some? then Ready(Current(state).value) else Idle
  }

  // ------------------------------------------------------------------ the widget object

  /** Listeners are numbered; `inbox` holds what each subscribed one has been told, oldest first. */
  class Widget {
    var state: State
    var listeners: set<nat>
    var inbox: map<nat, seq<State>>

    /** Every subscriber's last delivered state is the current one. */
    ghost predicate UpToDate()
      reads this
    {
      forall l :: l in listeners ==> l in inbox && inbox[l] != [] && inbox[l][|inbox[l]| - 1] == state
    }

    constructor ()
      ensures state == Idle && listeners == {} && UpToDate()
    {
      state := Idle;
      listeners := {};
      inbox := map[];
    }

    /** Stores the state and tells every listener once; listeners do not call back into the widget. */
    method Set(next: State)
      requires UpToDate()
      modifies this
      ensures state == next && listeners == old(listeners) && UpToDate()
      ensures forall l :: l in listeners ==> inbox[l] == old(inbox)[l] + [next]
      ensures forall l :: l in old(inbox) && l !in listeners ==> l in inbox && inbox[l] == old(inbox)[l]
    {
      state := next;
      var todo := listeners;
      while todo != {}
        invariant todo <= listeners && listeners == old(listeners) && state == next
        invariant forall l :: l in listeners ==> l in inbox
        invariant forall l :: l in todo ==> inbox[l] == old(inbox)[l]
        invariant forall l :: l in listeners - todo ==> inbox[l] == old(inbox)[l] + [next]
        invariant forall l :: l in old(inbox) && l !in listeners ==> l in inbox && inbox[l] == old(inbox)[l]
        decreases todo
      {
        var l :| l in todo;
        inbox := inbox[l := inbox[l] + [next]];
        todo := todo - {l};
      }
    }

    method Subscribe(l: nat)
      requires UpToDate()
      modifies this
      ensures listeners == old(listeners) + {l} && state == old(state) && UpToDate()
      ensures forall k :: k in old(inbox) && k != l ==> k in inbox && inbox[k] == old(inbox)[k]
    {
      listeners := listeners + {l};
      inbox := inbox[l := (if l in inbox then inbox[l] else []) + [state]];
    }

    /** The function `subscribe` returns: the listener keeps what it was told and, being no listener any
        more, is told nothing by a later `Set`. */
    method Unsubscribe(l: nat)
      requires UpToDate()
      modifies this
      ensures l !in listeners && listeners == old(listeners) - {l}
      ensures state == old(state) && inbox == old(inbox) && UpToDate()
    {
      listeners := listeners - {l};
    }

    /** `open` up to its suspension. */
    method OpenBegins()
      requires UpToDate()
      modifies this
      ensures state == Loading && listeners == old(listeners) && UpToDate()
    {
      Set(Loading);
    }

    method OpenSettles(result: Opened)
      requires UpToDate()
      modifies this
      ensures state == AfterOpen(result) && listeners == old(listeners) && UpToDate()
    {
      match result
      case Loaded(c) =>
        if !c.canRaiseTicket {
          Set(Unavailable(if c.unavailableReason.Some? then c.unavailableReason.value else CLOSED));
          return;
        }
        Set(Ready(c));
      case OpenFailed(fault) =>
        Set(FailureState(fault, None));
    }

    /** `submit` up to its suspension: it throws when nothing is loaded, and leaves the state alone. */
    method SubmitBegins() returns (captured: Option<Capabilities>)
      requires UpToDate()
      modifies this
      ensures captured == Current(old(state)) && listeners == old(listeners) && UpToDate()
      ensures state == if captured.Some? then Submitting(captured.value) else old(state)
    {
      captured := Current(state);
      if captured.Some? {
        Set(Submitting(captured.value));
      }
    }

    method SubmitSettles(captured: Capabilities, result: Filed)
      requires UpToDate()
      modifies this
      ensures state == AfterSubmit(captured, result) && listeners == old(listeners) && UpToDate()
    {
      match result
      case Accepted(ticket) => Set(Submitted(captured, ticket));
      case SubmitFailed(fault) =>
        if fault.ValidationFault? {
          Set(Ready(captured));
        } else {
          Set(FailureState(fault, Some(captured)));
        }
    }

    method Reset()
      requires UpToDate()
      modifies this
      ensures state == AfterReset(old(state)) && listeners == old(listeners) && UpToDate()
    {
      var c := Current(state);
      Set(if c.Some? then Ready(c.value) else Idle);
    }
  }

  // ------------------------------------------------------------------ every interleaving

  /** `opens` counts the opens under way; `submits` holds what each submit under way has captured. */
  datatype World = World(state: State, opens: nat, submits: seq<Capabilities>)

  datatype Event =
    | OpenBegins
    | OpenSettles(loaded: Opened)
    | SubmitBegins
    | SubmitSettles(i: nat, filed: Filed)
    | Reset

  const START := World(Idle, 0, [])

  function Step(w: World, e: Event): World {
    match e
    case OpenBegins => w.(state := Loading, opens := w.opens + 1)
    case OpenSettles(loaded) =>
      if w.opens == 0 then w else w.(state := AfterOpen(loaded), opens := w.opens - 1)
    case SubmitBegins =>
      (match Current(w.state)
       case None => w
       case Some(c) => w.(state := Submitting(c), submits := w.submits + [c]))
    case SubmitSettles(i, filed) =>
      if i >= |w.submits| then w
      else w.(state := AfterSubmit(w.submits[i], filed), submits := w.submits[..i] + w.submits[i + 1..])
    case Reset => w.(state := AfterReset(w.state))
  }

  function Run(w: World, es: seq<Event>): World
    decreases |es|
  {
    if es == [] then w else Run(Step(w, es[0]), es[1..])
  }

  /** Whoever can submit, or is submitting, does so with capabilities that allow it. */
  predicate MayRaise(w: World) {
    && (Current(w.state).Some? ==> Current(w.state).value.canRaiseTicket)
    && forall i :: 0 <= i < |w.submits| ==> w.submits[i].canRaiseTicket
  }

  lemma {:induction false} MayRaiseAlways(w: World, es: seq<Event>)
    requires MayRaise(w)
    ensures MayRaise(Run(w, es))
    decreases |es|
  {
    if es != [] {
      MayRaiseAlways(Step(w, es[0]), es[1..]);
    }
  }

  /** Under every interleaving the widget only offers the form, and only submits, with capabilities
      that allow raising a ticket. */
  lemma OnlyAllowedSubmits(es: seq<Event>)
    ensures MayRaise(Run(START, es))
  {
    MayRaiseAlways(START, es);
  }

  /** Nothing came back, or the host's own code threw. */
  predicate IsOutage(fault: Fault) {
    fault.OtherFault? || (fault.RequestFault? && fault.status.None?)
  }

  predicate IsForbidden(fault: Fault) {
    fault.RequestFault? && fault.status == Some(403)
  }

  /** Where the submit at place `i` of `submits` stands after `es`, if it has not settled by then. */
  function PlaceOf(w: World, i: nat, es: seq<Event>): (place: Option<nat>)
    decreases |es|
  {
    if es == [] then Some(i)
    else
      var e, w' := es[0], Step(w, es[0]);
      if e.SubmitSettles? && e.i == i then None
      else PlaceOf(w', if e.SubmitSettles? && e.i < i then i - 1 else i, es[1..])
  }

  lemma {:induction false} SubmitKeepsItsForm(w: World, i: nat, es: seq<Event>)
    requires i < |w.submits| && PlaceOf(w, i, es).Some?
    ensures var w', k := Run(w, es), PlaceOf(w, i, es).value;
      k < |w'.submits| && w'.submits[k] == w.submits[i]
    decreases |es|
  {
    if es != [] {
      var e := es[0];
      SubmitKeepsItsForm(Step(w, e), if e.SubmitSettles? && e.i < i then i - 1 else i, es[1..]);
    }
  }

  /** Whatever happens while a submit is under way (resets, other opens, other submits that settle first),
      it settles into the state its own result and the form it began with dictate: the ticket is shown,
      that form stays on screen, or it is gone because support said no or could not be reached. */
  lemma SubmitOutcome(es: seq<Event>, c: Capabilities, later: seq<Event>, filed: Filed)
    requires Current(Run(START, es).state) == Some(c)
    requires var w := Run(START, es); PlaceOf(Step(w, SubmitBegins), |w.submits|, later).Some?
    ensures var w := Run(START, es);
      var begun := Step(w, SubmitBegins);
      var i := PlaceOf(begun, |w.submits|, later).value;
      var before := Run(begun, later);
      var s := Step(before, SubmitSettles(i, filed)).state;
      && i < |before.submits| && c.canRaiseTicket
      && (filed.Accepted? <==> s.Submitted?) && (filed.Accepted? ==> s == Submitted(c, filed.ticket))
      && (filed.SubmitFailed? && filed.fault.ValidationFault? <==> s == Ready(c))
      && (filed.SubmitFailed? && IsForbidden(filed.fault) <==> s.Unavailable?)
      && (filed.SubmitFailed? && IsOutage(filed.fault) <==> s.Offline?)
      && (Current(s) == Some(c) <==> !s.Unavailable? && !s.Offline?)
  {
    var w := Run(START, es);
    OnlyAllowedSubmits(es);
    SubmitKeepsItsForm(Step(w, SubmitBegins), |w.submits|, later);
  }

  /** Events that leave a loaded form alone: no opening, and no submit that ends in an outage or a 403. */
  predicate KeepsForm(e: Event) {
    match e
    case OpenBegins => false
    case OpenSettles(_) => false
    case SubmitSettles(_, filed) => filed.SubmitFailed? ==> !IsOutage(filed.fault) && !IsForbidden(filed.fault)
    case _ => true
  }

  /** A loaded form is lost only by opening again or by such a submit: no number of resets, accepted or
      refused submits, in any order, takes it away. */
  lemma {:induction false} FormSurvives(w: World, es: seq<Event>, c: Capabilities)
    requires Current(w.state) == Some(c) && forall i :: 0 <= i < |w.submits| ==> w.submits[i] == c
    requires forall k :: 0 <= k < |es| ==> KeepsForm(es[k])
    ensures Current(Run(w, es).state) == Some(c)
    decreases |es|
  {
    if es != [] {
      assert KeepsForm(es[0]);
      FormSurvives(Step(w, es[0]), es[1..], c);
    }
  }

  // ------------------------------------------------------------------ the states, one by one

  /** Where a failure leaves the widget: a 403 says no in its own words, an answer with another status can be tried again
      with the form that was there, and everything else is an outage. */
  predicate ShowsFailure(state: State, fault: Fault, form: Option<Capabilities>) {
    match fault
    case RequestFault(status, message) =>
      if status.None? then state == Offline("Support could not be reached. Please try again.")
      else if status.value == 403 then state == Unavailable(message)
      else state == Error(message, form)
    case ValidationFault(message) => state == Offline(message)
    case OtherFault(message) => state == Offline(message)
    case NotAnError => state == Error("Something went wrong", form)
  }

  /** Main: whatever happened meanwhile, an opening that comes back loads exactly the capabilities it got, if they allow a
      ticket; otherwise it gives support's own reason, or says that support is not open. */
  lemma OpeningLoads(es: seq<Event>, result: Opened)
    requires Run(START, es).opens > 0
    ensures var w := Run(START, es);
      var w' := Step(w, OpenSettles(result));
      && w'.opens == w.opens - 1 && w'.submits == w.submits
      && match result
         case Loaded(c) =>
           if c.canRaiseTicket then w'.state == Ready(c)
           else if c.unavailableReason.Some? then w'.state == Unavailable(c.unavailableReason.value)
           else w'.state == Unavailable("Support is not open for this product")
         case OpenFailed(fault) => ShowsFailure(w'.state, fault, None)
  {
    hide Run;
  }

  /** Main: opening shows that it loads, and until it comes back nothing can be submitted. */
  lemma OpeningBegins(es: seq<Event>)
    ensures var w := Step(Run(START, es), OpenBegins);
      && w.state == Loading && w.opens == Run(START, es).opens + 1
      && Step(w, SubmitBegins) == w && Step(w, Reset).state == Idle
  {
    hide Run;
  }

  /** Main: a submit that comes back shows its ticket, the form again after a refused entry, or the failure. */
  lemma SubmitShows(es: seq<Event>, i: nat, filed: Filed)
    requires i < |Run(START, es).submits|
    ensures var w := Run(START, es);
      var state, c := Step(w, SubmitSettles(i, filed)).state, w.submits[i];
      match filed
      case Accepted(ticket) => state == Submitted(c, ticket)
      case SubmitFailed(fault) =>
        if fault.ValidationFault? then state == Ready(c) else ShowsFailure(state, fault, Some(c))
  {
    hide Run;
  }
}
