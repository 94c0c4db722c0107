/** Which named streams are live: a map from names to push times that forgets stale names lazily. */
module StreamTracker {

  const MODEL := "dc-model"

  /** One call of `push`, with the clock reading it took. */
  datatype Push = Push(name: string, streaming: bool, viewport: string, at: int)

  /** The last push for `name` that was not a model push, if it was streaming: when it happened. */
  function LastStreaming(log: seq<Push>, name: string): (r: Option<int>)
  {
    if log == [] then None
    else
      var p := log[|log| - 1];
      if p.name == name && p.viewport != MODEL then (if p.streaming then Some(p.at) else None)
      else LastStreaming(log[..|log| - 1], name)
  }

  datatype Option<+T> = None | Some(value: T)

  /** The specification: the last relevant push for the name was streaming and is recent enough. */
  predicate IsLive(log: seq<Push>, name: string, staleMs: int, now: int) {
    var last := LastStreaming(log, name);
    last.Some? && now - last.value <= staleMs
  }

  lemma LastStreamingIsLogged(log: seq<Push>, name: string)
    ensures LastStreaming(log, name).Some? ==>
      exists i :: 0 <= i < |log| && log[i].name == name && log[i].streaming && log[i].at == LastStreaming(log, name).value
  {
    if log != [] && LastStreaming(log, name).Some? {
      var p := log[|log| - 1];
      if p.name == name && p.viewport != MODEL {
      } else {
        LastStreamingIsLogged(log[..|log| - 1], name);
      }
    }
  }

  /** Once stale, a name stays stale until it is pushed again. */
  lemma StaleStaysStale(log: seq<Push>, name: string, staleMs: int, now: int, later: int)
    requires now <= later && !IsLive(log, name, staleMs, now)
    ensures !IsLive(log, name, staleMs, later)
  {
  }

  /** Main: what one more push does to every name: a push from the model view nothing; any other the name's own state, live
      for the time given if it streams; and no push touches another name. */
  lemma PushMeans(log: seq<Push>, p: Push, name: string, staleMs: int, now: int)
    ensures IsLive(log + [p], name, staleMs, now) <==>
      if p.name != name || p.viewport == "dc-model" then IsLive(log, name, staleMs, now)
      else p.streaming && now <= p.at + staleMs
    ensures !IsLive([], name, staleMs, now)
  {
    assert (log + [p])[..|log|] == log;
  }

  class Tracker {
    const staleMs: int
    var since: map<string, int>
    /** Every push so far, and the latest clock reading. */
    ghost var log: seq<Push>
    ghost var clock: int

    /** A remembered name has its last streaming push; a forgotten one was never streaming or is stale. */
    ghost predicate Valid()
      reads this
    {
      && (forall n :: n in since ==> LastStreaming(log, n) == Some(since[n]))
      && (forall n {:trigger n in since} :: n !in since ==> !IsLive(log, n, staleMs, clock))
    }

    constructor (staleMs: int, now: int)
      ensures Valid() && this.staleMs == staleMs && log == [] && clock == now
    {
      this.staleMs := staleMs;
      since := map[];
      log := [];
      clock := now;
    }

    method PushFrom(name: string, streaming: bool, viewport: string, now: int)
      requires Valid() && clock <= now
      modifies this
      ensures Valid() && clock == now && log == old(log) + [Push(name, streaming, viewport, now)]
    {
      ghost var was, before := log, clock;
      log := log + [Push(name, streaming, viewport, now)];
      clock := now;
      assert log[..|log| - 1] == was;
      forall n | n !in since ensures !IsLive(was, n, staleMs, now) {
        StaleStaysStale(was, n, staleMs, before, now);
      }
      if viewport == MODEL {
        return;
      }
      if streaming {
        since := since[name := now];
      } else {
        since := since - {name};
      }
    }

    /** `live(name)`: forgets the name when it is stale. */
    method LiveOne(name: string, now: int) returns (live: bool)
      requires Valid() && clock <= now
      modifies this
      ensures Valid() && clock == now && log == old(log)
      ensures live <==> IsLive(log, name, staleMs, now)
      ensures since.Keys <= old(since.Keys)
      ensures forall n :: n in old(since) && n != name ==> n in since
    {
      ghost var before := clock;
      clock := now;
      forall n | n !in since ensures !IsLive(log, n, staleMs, now) {
        StaleStaysStale(log, n, staleMs, before, now);
      }
      if name !in since {
        return false;
      }
      if now - since[name] > staleMs {
        since := since - {name};
        return false;
      }
      return true;
    }

    /** `live()`: asks every remembered name in turn, reading the clock each time.  `readings` are the
        clock readings, one for each name asked. */
    method LiveAny(names: seq<string>, readings: seq<int>) returns (live: bool, asked: nat)
      requires Valid()
      requires forall n :: n in since <==> n in names
      requires |readings| == |names|
      requires forall i :: 0 <= i < |readings| ==> clock <= readings[i]
      requires forall i, j :: 0 <= i < j < |readings| ==> readings[i] <= readings[j]
      modifies this
      ensures Valid() && log == old(log)
      ensures asked <= |names|
      ensures live ==> 0 < asked && IsLive(log, names[asked - 1], staleMs, readings[asked - 1])
      ensures !live ==> forall n :: !IsLive(log, n, staleMs, clock)
      ensures clock == if asked == 0 then old(clock) else readings[asked - 1]
      ensures !live ==> asked == |names|
    {
      asked := 0;
      while asked < |names|
        invariant asked <= |names| && Valid() && log == old(log)
        invariant clock == if asked == 0 then old(clock) else readings[asked - 1]
        invariant forall n :: n in since ==> n in names
        invariant forall i :: 0 <= i < asked ==> !IsLive(log, names[i], staleMs, clock)
      {
        ghost var before := clock;
        assert before <= readings[asked];
        live := LiveOne(names[asked], readings[asked]);
        forall i | 0 <= i < asked ensures !IsLive(log, names[i], staleMs, clock) {
          StaleStaysStale(log, names[i], staleMs, before, clock);
        }
        asked := asked + 1;
        if live {
          return;
        }
      }
      live := false;
      forall n ensures !IsLive(log, n, staleMs, clock) {
        if n in since {
          assert n in names;
        }
      }
    }
  }
}
