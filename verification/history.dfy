/** What the engine's variables mean in terms of the whole history of probe
    results fed to it since main() started: the counters are the lengths of
    the trailing blocks of identical results, the confirmed state is the
    verdict of the latest block that reached the limit, and the emitted
    transitions alternate and are never repeated.
 */
module History {
  import opened Debounce

  /** The number of results at the end of `probes` that equal `b`. */
  function TrailingRun(probes: seq<bool>, b: bool): (n: nat)
    ensures n <= |probes|
    ensures forall i :: |probes| - n <= i < |probes| ==> probes[i] == b
    ensures n < |probes| ==> probes[|probes| - 1 - n] != b
  {
    if probes == [] || Last(probes) != b then 0
    else 1 + TrailingRun(DropLast(probes), b)
  }

  /** The verdict of the most recent prefix of `probes` that ends in at
      least `limit` identical results, or `Unknown` if there is none. */
  function Settled(probes: seq<bool>, limit: int): Confirmed
    decreases |probes|
  {
    if probes == [] then Unknown
    else if TrailingRun(probes, Last(probes)) >= limit then Verdict(Last(probes))
    else Settled(DropLast(probes), limit)
  }

  /** A run over `xs + ys` is the run over `xs` continued with `ys`. */
  lemma {:induction false} RunAppend(e: Engine, xs: seq<bool>, ys: seq<bool>, limit: int)
    ensures Run(e, xs + ys, limit).0 == Run(Run(e, xs, limit).0, ys, limit).0
    ensures Run(e, xs + ys, limit).1 == Run(e, xs, limit).1 + Run(Run(e, xs, limit).0, ys, limit).1
    decreases |ys|
  {
    if ys == [] {
      assert xs + ys == xs;
    } else {
      assert DropLast(xs + ys) == xs + DropLast(ys);
      assert Last(xs + ys) == Last(ys);
      RunAppend(e, xs, DropLast(ys), limit);
    }
  }

  /** From the start of main(), the success counter is the number of trailing
      successful pings and the failure counter the number of trailing failed
      ones. */
  lemma {:induction false} CountersAreTrailingRuns(probes: seq<bool>, limit: int)
    ensures Run(Initial, probes, limit).0.success == TrailingRun(probes, true)
    ensures Run(Initial, probes, limit).0.failure == TrailingRun(probes, false)
    decreases |probes|
  {
    if probes != [] {
      CountersAreTrailingRuns(DropLast(probes), limit);
    }
  }

  /** With a positive limit, the confirmed state after any history is the
      verdict of the latest block of `limit` identical results. */
  lemma {:induction false} StateIsSettled(probes: seq<bool>, limit: int)
    requires limit >= 1
    ensures Run(Initial, probes, limit).0.state == Settled(probes, limit)
    decreases |probes|
  {
    if probes != [] {
      StateIsSettled(DropLast(probes), limit);
      CountersAreTrailingRuns(probes, limit);
    }
  }

  /** With a positive limit, the tick that handles the last result of
      `probes` emits the transition towards that result's verdict exactly
      when it completes a block of `limit` identical results and the state
      confirmed before it was a different one; otherwise it emits nothing. */
  lemma TickEmission(probes: seq<bool>, limit: int)
    requires limit >= 1
    requires probes != []
    ensures Run(Initial, probes, limit).1 ==
      Run(Initial, DropLast(probes), limit).1 +
      (if TrailingRun(probes, Last(probes)) >= limit && Settled(DropLast(probes), limit) != Verdict(Last(probes))
       then [Edge(Last(probes))] else [])
  {
    StateIsSettled(DropLast(probes), limit);
    CountersAreTrailingRuns(probes, limit);
  }

  /** From any engine and for any limit, the emitted transitions alternate,
      the first leaves a state other than its target, and the final state is
      the target of the last one (or the starting state if none fired). */
  lemma {:induction false} TraceAlternates(e: Engine, probes: seq<bool>, limit: int)
    ensures Alternates(Run(e, probes, limit).1)
    ensures Run(e, probes, limit).1 == [] ==> Run(e, probes, limit).0.state == e.state
    ensures Run(e, probes, limit).1 != [] ==>
      Run(e, probes, limit).0.state == Target(Last(Run(e, probes, limit).1)) &&
      Target(Run(e, probes, limit).1[0]) != e.state
    decreases |probes|
  {
    if probes != [] {
      TraceAlternates(e, DropLast(probes), limit);
    }
  }

  /** From the start of main(), the state is `Unknown` exactly as long as no
      transition has fired. */
  lemma {:induction false} UnknownUntilFirstTransition(probes: seq<bool>, limit: int)
    ensures Run(Initial, probes, limit).0.state == Unknown <==> Run(Initial, probes, limit).1 == []
  {
    TraceAlternates(Initial, probes, limit);
  }

  /** Once the state is the verdict of `b`, further results equal to `b`
      emit nothing and keep that state, whatever the counters are. */
  lemma {:induction false} ConfirmedStateIsStable(e: Engine, b: bool, probes: seq<bool>, limit: int)
    requires limit >= 1
    requires e.state == Verdict(b)
    requires forall i :: 0 <= i < |probes| ==> probes[i] == b
    ensures Run(e, probes, limit).1 == []
    ensures Run(e, probes, limit).0.state == Verdict(b)
    decreases |probes|
  {
    if probes != [] {
      ConfirmedStateIsStable(e, b, DropLast(probes), limit);
    }
  }

  /** With the limit at zero or below, from a state other than `Reachable`,
      every probe result, whatever its value, emits both transitions (so
      both sets of batch files run) and never leaves the state `Reachable`. */
  lemma {:induction false} NonPositiveLimitFlaps(e: Engine, probes: seq<bool>, limit: int)
    requires limit <= 0
    requires e.state != Reachable
    ensures |Run(e, probes, limit).1| == 2 * |probes|
    ensures Run(e, probes, limit).0.state != Reachable
    decreases |probes|
  {
    if probes != [] {
      NonPositiveLimitFlaps(e, DropLast(probes), limit);
    }
  }
}
