/** When a call is sent again: what happened on the wire, told by the events alone. */
module SupportClientRetries {
  import opened SupportClient
  import opened SupportClientRuns

  lemma {:induction false} RunConcat(lead: int, w: World, a: seq<Event>, b: seq<Event>)
    ensures Run(lead, w, a + b) == Run(lead, Run(lead, w, a), b)
    decreases |a|
  {
    hide Step;
    if a == [] {
      assert a + b == b;
    } else {
      assert (a + b)[1..] == a[1..] + b;
      RunConcat(lead, Step(lead, w, a[0]), a[1..], b);
    }
  }

  /** An answer of the server to call `c`. */
  predicate Answers(e: Event, c: nat) {
    e.Respond? && e.c == c
  }

  predicate Refuses(e: Event, c: nat) {
    Answers(e, c) && e.status == Some(401)
  }

  /** The requests of call `c` from position `from` of the wire on. */
  predicate SendsNothing(w: World, c: nat, from: nat) {
    forall i :: from <= i < |w.wire| ==> w.wire[i].call != c
  }

  // ----- after an answer -----

  lemma StageStays(lead: int, w: World, e: Event, c: nat)
    requires c < |w.calls|
    ensures var w' := Step(lead, w, e);
      && c < |w'.calls| && |w.wire| <= |w'.wire| && w'.wire[..|w.wire|] == w.wire
      && (w.calls[c].stage.Closed? ==> w'.calls[c].stage.Closed? && SendsNothing(w', c, |w.wire|))
      && (w.calls[c].stage.Sent? && !Answers(e, c) ==>
            w'.calls[c].stage == w.calls[c].stage && SendsNothing(w', c, |w.wire|))
  {
  }

  /** A closed call stays closed and is never on the wire again. */
  lemma {:induction false} ClosedIsOver(lead: int, w: World, es: seq<Event>, c: nat)
    requires c < |w.calls| && w.calls[c].stage.Closed?
    ensures var w' := Run(lead, w, es);
      && c < |w'.calls| && w'.calls[c].stage.Closed?
      && |w.wire| <= |w'.wire| && w'.wire[..|w.wire|] == w.wire && SendsNothing(w', c, |w.wire|)
    decreases |es|
  {
    if es != [] {
      hide Step;
      var w1 := Step(lead, w, es[0]);
      StageStays(lead, w, es[0], c);
      ClosedIsOver(lead, w1, es[1..], c);
      WireGrows(w, w1, Run(lead, w1, es[1..]), c);
    }
  }

  lemma WireGrows(w: World, w1: World, w2: World, c: nat)
    requires |w.wire| <= |w1.wire| <= |w2.wire| && w1.wire[..|w.wire|] == w.wire && w2.wire[..|w1.wire|] == w1.wire
    requires SendsNothing(w1, c, |w.wire|) && SendsNothing(w2, c, |w1.wire|)
    ensures w2.wire[..|w.wire|] == w.wire && SendsNothing(w2, c, |w.wire|)
  {
    assert forall i :: 0 <= i < |w1.wire| ==> w2.wire[i] == w2.wire[..|w1.wire|][i];
  }

  /** Main: any answer but a first 401 ends the call for good: no run sends it again. */
  lemma OtherAnswerEndsTheCall(lead: int, w: World, e: Event, c: nat, es: seq<Event>)
    requires Enabled(w, e) && Answers(e, c) && (e.status != Some(401) || w.calls[c].stage == Sent(true))
    ensures var w' := Run(lead, Step(lead, w, e), es);
      c < |w'.calls| && w'.calls[c].stage.Closed? && |w.wire| <= |w'.wire| && SendsNothing(w', c, |w.wire|)
  {
    hide Run;
    var w1 := Step(lead, w, e);
    assert w1.calls[c].stage.Closed? && w1.wire == w.wire;
    ClosedIsOver(lead, w1, es, c);
  }

  /** Main: after a first 401 the cached session and the pending mint are dropped, and the call waits for a mint that is
      started at that moment; only a provider that throws ends it instead. */
  lemma First401MintsAfresh(lead: int, w: World, e: Event, c: nat)
    requires Enabled(w, e) && Refuses(e, c) && w.calls[c].stage == Sent(false)
    ensures var w' := Step(lead, w, e);
      && c < |w'.calls| && w'.wire == w.wire && w'.mem.current.None?
      && if e.throws then w'.calls[c].stage.Closed? && w'.mints == w.mints
         else
           && w'.calls[c].stage == Waiting(|w.mints|, true)
           && w'.mints == w.mints + [Running] && w'.mem.pending == Some(|w.mints|)
  {
  }

  // ----- between two attempts -----

  /** The stages of a call that waits for, or has the session of, mint `m` for its second attempt. */
  predicate Retrying(stage: Stage, m: nat) {
    || stage == Waiting(m, true)
    || (stage.Ready? && stage.retry && stage.issued.mint == m)
    || stage == Sent(true)
    || stage.Closed?
  }

  lemma {:induction false} RetryKeepsItsMint(lead: int, w: World, es: seq<Event>, c: nat, m: nat)
    requires c < |w.calls| && Retrying(w.calls[c].stage, m)
    ensures var w' := Run(lead, w, es); c < |w'.calls| && Retrying(w'.calls[c].stage, m)
    decreases |es|
  {
    if es != [] {
      RetryStep(lead, w, es[0], c, m);
      hide Step;
      RetryKeepsItsMint(lead, Step(lead, w, es[0]), es[1..], c, m);
    }
  }

  lemma RetryStep(lead: int, w: World, e: Event, c: nat, m: nat)
    requires c < |w.calls| && Retrying(w.calls[c].stage, m)
    ensures var w' := Step(lead, w, e); c < |w'.calls| && Retrying(w'.calls[c].stage, m)
  {
  }

  /** Main: between two sends of one call in any run lies a 401 for it, and the second carries the token of a mint that was
      started at that very answer. */
  lemma TwoSendsHaveA401Between(lead: int, es: seq<Event>, c: nat, i: nat, j: nat) returns (k: nat)
    requires i < j < |es| && es[i] == Send(c) && es[j] == Send(c)
    requires Enabled(Run(lead, START, es[..i]), es[i]) && Enabled(Run(lead, START, es[..j]), es[j])
    ensures i < k < j && Refuses(es[k], c) && Enabled(Run(lead, START, es[..k]), es[k])
    ensures Run(lead, START, es[..j]).calls[c].stage.issued.mint == |Run(lead, START, es[..k]).mints|
  {
    hide Run;
    var w := Run(lead, START, es[..i]);
    var sent := Step(lead, w, es[i]);
    RunMore(lead, es, i);
    RunBetween(lead, es, i + 1, j);
    var n := First401(lead, sent, es[i + 1..j], c);
    k := n + i + 1;
    var before := Run(lead, START, es[..k]);
    RunBetween(lead, es, i + 1, k);
    assert es[i + 1..j][..k - i - 1] == es[i + 1..k] && es[i + 1..j][k - i - 1] == es[k];
    RunMore(lead, es, k);
    RunBetween(lead, es, k + 1, j);
    AnsweredRetries(lead, before, es[k], c);
    RetryKeepsItsMint(lead, Step(lead, before, es[k]), es[k + 1..j], c, |before.mints|);
  }

  lemma AnsweredRetries(lead: int, w: World, e: Event, c: nat)
    requires Enabled(w, e) && Refuses(e, c)
    ensures var w' := Step(lead, w, e); c < |w'.calls| && Retrying(w'.calls[c].stage, |w.mints|)
  {
  }

  lemma RunMore(lead: int, es: seq<Event>, i: nat)
    requires i < |es|
    ensures Run(lead, START, es[..i + 1]) == Step(lead, Run(lead, START, es[..i]), es[i])
  {
    hide Step;
    assert es[..i + 1] == es[..i] + [es[i]];
    RunConcat(lead, START, es[..i], [es[i]]);
    assert [es[i]][1..] == [];
    var w := Run(lead, START, es[..i]);
    assert Run(lead, w, [es[i]]) == Run(lead, Step(lead, w, es[i]), []);
  }

  lemma RunBetween(lead: int, es: seq<Event>, i: nat, j: nat)
    requires i <= j <= |es|
    ensures Run(lead, START, es[..j]) == Run(lead, Run(lead, START, es[..i]), es[i..j])
  {
    hide Run;
    assert es[..j] == es[..i] + es[i..j];
    RunConcat(lead, START, es[..i], es[i..j]);
  }

  /** From a sent call to a ready one: the first 401 finds it still out. */
  lemma First401(lead: int, w: World, es: seq<Event>, c: nat) returns (k: nat)
    requires c < |w.calls| && w.calls[c].stage.Sent?
    requires var w' := Run(lead, w, es); c < |w'.calls| && w'.calls[c].stage.Ready?
    ensures k < |es| && Refuses(es[k], c) && Enabled(Run(lead, w, es[..k]), es[k])
    decreases |es|
  {
    hide Step;
    if es == [] {
      assert false;
    }
    var w1 := Step(lead, w, es[0]);
    if Refuses(es[0], c) && Enabled(w, es[0]) {
      k := 0;
      assert es[..0] == [];
    } else {
      FirstStep(lead, w, es[0], c);
      if w1.calls[c].stage.Closed? {
        ClosedIsOver(lead, w1, es[1..], c);
        assert false;
      }
      var n := First401(lead, w1, es[1..], c);
      k := n + 1;
      assert es[..k][1..] == es[1..][..n] && es[..k][0] == es[0];
    }
  }

  lemma FirstStep(lead: int, w: World, e: Event, c: nat)
    requires c < |w.calls| && w.calls[c].stage.Sent? && !(Refuses(e, c) && Enabled(w, e))
    ensures var w' := Step(lead, w, e); c < |w'.calls| && (w'.calls[c].stage.Sent? || w'.calls[c].stage.Closed?)
  {
  }
}
