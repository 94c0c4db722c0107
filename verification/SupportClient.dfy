/** The session memory of the embedded support client: one cached session, one pending mint. */
module SupportClient {

  datatype Option<+T> = None | Some(value: T)

  datatype Expiry = At(ms: int) | Unreadable

  datatype Session = Session(token: string, expires: Expiry)

  /** A session together with the number of the mint that produced it. */
  datatype Issued = Issued(mint: nat, session: Session)

  datatype Memory = Memory(current: Option<Issued>, pending: Option<nat>)

  /** What a caller of `session()` gets: a cached session, a mint to wait for, or an exception that
      the host's provider threw before any promise existed. */
  datatype Answer = Cached(issued: Issued) | Awaiting(mint: nat) | ProviderThrew

  const EMPTY := Memory(None, None)

  predicate ExpiringSoon(session: Session, now: int, leadSeconds: int) {
    match session.expires
    case Unreadable => true
    case At(ms) => ms - now <= leadSeconds * 1000
  }

  /** `session()` as a function of the memory; `next` is the number a new mint would get. */
  function AskSession(mem: Memory, now: int, leadSeconds: int, next: nat, throws: bool): (r: (Memory, Answer)) {
    if mem.current.Some? && !ExpiringSoon(mem.current.value.session, now, leadSeconds) then
      (mem, Cached(mem.current.value))
    else if mem.pending.Some? then (mem, Awaiting(mem.pending.value))
    else if throws then (mem, ProviderThrew)
    else (mem.(pending := Some(next)), Awaiting(next))
  }

  /** Readable, and good for longer than the lead time. */
  predicate Usable(mem: Memory, now: int, leadSeconds: int) {
    && mem.current.Some? && mem.current.value.session.expires.At?
    && mem.current.value.session.expires.ms > now + leadSeconds * 1000
  }

  /** Whoever asks now gets the same answer, unless the cache serves him. */
  predicate SharedBy(mem: Memory, now: int, leadSeconds: int, next: nat, throws: bool, answer: Answer) {
    !Usable(mem, now, leadSeconds) ==> AskSession(mem, now, leadSeconds, next, throws) == (mem, answer)
  }

  class Client {
    const leadSeconds: int
    var current: Option<Issued>
    var pending: Option<nat>

    constructor (leadSeconds: int)
      ensures this.leadSeconds == leadSeconds && Snapshot() == EMPTY
    {
      this.leadSeconds := leadSeconds;
      current := None;
      pending := None;
    }

    function Snapshot(): Memory
      reads this
    {
      Memory(current, pending)
    }

    /** The synchronous part of `session()`: everything up to the first suspension.  The cache answers
        exactly when its session is usable; otherwise the caller shares one mint with everyone who asks
        until that mint settles, and only a provider that throws leaves him without one. */
    method Ask(now: int, next: nat, throws: bool) returns (answer: Answer)
      modifies this
      ensures (Snapshot(), answer) == AskSession(old(Snapshot()), now, leadSeconds, next, throws)
      ensures current == old(current)
      ensures answer.Cached? <==> Usable(Snapshot(), now, leadSeconds)
      ensures answer.Cached? ==> current == Some(answer.issued)
      ensures answer.Awaiting? ==>
        forall later, n, t :: SharedBy(Snapshot(), later, leadSeconds, n, t, answer)
      ensures answer.Awaiting? && answer.mint != next ==> old(pending) == Some(answer.mint)
      ensures answer.ProviderThrew? ==> throws && Snapshot() == old(Snapshot()) && pending.None?
    {
      if current.Some? && !ExpiringSoon(current.value.session, now, leadSeconds) {
        return Cached(current.value);
      }
      if pending.None? {
        if throws {
          return ProviderThrew;
        }
        pending := Some(next);
      }
      return Awaiting(pending.value);
    }

    method Reset()
      modifies this
      ensures Snapshot() == EMPTY
    {
      current := None;
      pending := None;
    }

    /** The `.then` callback of mint `m`: from then on the cache hands out this session, to whoever asks
        before the lead time begins, even when the mint was started before a reset. */
    method OnDelivered(m: nat, session: Session)
      modifies this
      ensures Snapshot() == old(Snapshot()).(current := Some(Issued(m, session)))
      ensures forall now, next, throws :: !ExpiringSoon(session, now, leadSeconds) ==>
        AskSession(Snapshot(), now, leadSeconds, next, throws) == (Snapshot(), Cached(Issued(m, session)))
    {
      current := Some(Issued(m, session));
    }

    /** The `.finally` callback of any mint: it clears whatever is pending, so whoever asks next and
        cannot be served from the cache starts a mint of his own. */
    method OnSettled()
      modifies this
      ensures Snapshot() == old(Snapshot()).(pending := None)
      ensures forall now, next: nat, throws :: AskSession(Snapshot(), now, leadSeconds, next, throws).1.Awaiting? ==>
        AskSession(Snapshot(), now, leadSeconds, next, throws).1 == Awaiting(next)
    {
      pending := None;
    }

    /** The `catch` branch of `withSession` after a 401: `reset()` and the second `session()` run
        without a suspension in between, so the answer is never a cached session and never a mint
        that was already under way. */
    method ResetAndAsk(now: int, next: nat, throws: bool) returns (answer: Answer)
      modifies this
      ensures answer == if throws then ProviderThrew else Awaiting(next)
      ensures Snapshot() == if throws then EMPTY else Memory(None, Some(next))
    {
      Reset();
      answer := Ask(now, next, throws);
    }
  }
}
