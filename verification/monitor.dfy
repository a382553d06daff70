/** The monitoring loop of main() around the debounce engine: a monitor is
    built from the configured `ping_limit`, observes one probe result per
    tick, and for each transition runs the batch files of one folder.
    Unlike main.py, building a monitor refuses a limit below one, the value
    for which the engine stops debouncing (see `History.NonPositiveLimitFlaps`).
 */
module Monitor {
  import opened Debounce
  import opened History

  datatype Option<T> = None | Some(value: T)

  /** The configured `ping_limit` together with the engine it drives. */
  datatype Monitor = Monitor(limit: int, engine: Engine)

  predicate Valid(m: Monitor) {
    m.limit >= 1
  }

  /** Builds a monitor in the initial state, refusing a limit below one. */
  function NewMonitor(pingLimit: int): (r: Option<Monitor>)
    ensures r.Some? <==> pingLimit >= 1
    ensures r.Some? ==> Valid(r.value) && r.value.limit == pingLimit
    ensures r.Some? ==> r.value.engine.state == Unknown && r.value.engine.success == 0 && r.value.engine.failure == 0
    // the limit it accepts never lets one tick emit both transitions
    ensures r.Some? ==> forall e: Engine, b: bool :: |Step(e, b, pingLimit).1| <= 1
  {
    if pingLimit >= 1 then Some(Monitor(pingLimit, Initial)) else None
  }

  /** One tick: feeds a probe result to the engine and reports the
      transition it caused, if any. */
  function Observe(m: Monitor, isReachable: bool): (r: (Monitor, Option<Transition>))
    requires Valid(m)
    ensures r.0.limit == m.limit
    ensures r.1 == Some(ToReachable) <==>
      isReachable && m.engine.success + 1 >= m.limit && m.engine.state != Reachable
    ensures r.1 == Some(ToUnreachable) <==>
      !isReachable && m.engine.failure + 1 >= m.limit && m.engine.state != Unreachable
    ensures r.1.None? ==> r.0.engine.state == m.engine.state
    ensures r.1.Some? ==> r.0.engine.state == Target(r.1.value) != m.engine.state
    ensures Exclusive(r.0.engine)
    // the engine moves as one iteration of the loop, and nothing it emits is lost
    ensures r.0.engine == Step(m.engine, isReachable, m.limit).0
    ensures Step(m.engine, isReachable, m.limit).1 == if r.1.None? then [] else [r.1.value]
  {
    var (next, emitted) := Step(m.engine, isReachable, m.limit);
    (Monitor(m.limit, next), if emitted == [] then None else Some(emitted[0]))
  }

  /** The folder whose batch files main() runs on a transition. */
  function Folder(t: Transition): string {
    match t
    case ToReachable => "reachable"
    case ToUnreachable => "not_reachable"
  }

  /** The loop of main() over a finite stream of probe results: observe each
      result in turn and, on a transition, dispatch the matching folder.
      Returns the final monitor and the folders dispatched, in order. */
  method Watch(m: Monitor, probes: seq<bool>) returns (final: Monitor, folders: seq<string>)
    requires Valid(m)
    ensures final.limit == m.limit
    ensures final.engine == Run(m.engine, probes, m.limit).0
    ensures |folders| == |Run(m.engine, probes, m.limit).1| <= |probes|
    ensures forall i :: 0 <= i < |folders| ==> folders[i] == Folder(Run(m.engine, probes, m.limit).1[i])
    ensures forall i :: 0 < i < |folders| ==> folders[i - 1] != folders[i]
    ensures m.engine == Initial ==> final.engine.state == Settled(probes, m.limit)
    ensures m.engine == Initial ==>
      final.engine.success == TrailingRun(probes, true) && final.engine.failure == TrailingRun(probes, false)
  {
    final := m;
    folders := [];
    ghost var trace: seq<Transition> := [];
    var i := 0;
    while i < |probes|
      invariant 0 <= i <= |probes|
      invariant final.limit == m.limit
      invariant (final.engine, trace) == Run(m.engine, probes[..i], m.limit)
      invariant |folders| == |trace|
      invariant forall k :: 0 <= k < |folders| ==> folders[k] == Folder(trace[k])
    {
      assert DropLast(probes[..i + 1]) == probes[..i];
      assert Last(probes[..i + 1]) == probes[i];
      ghost var step := Step(final.engine, probes[i], m.limit);
      assert Run(m.engine, probes[..i + 1], m.limit) == (step.0, trace + step.1);
      var observed := Observe(final, probes[i]);
      var emitted := observed.1;
      final := observed.0;
      if emitted.Some? {
        folders := folders + [Folder(emitted.value)];
        trace := trace + [emitted.value];
      } else {
        assert trace + step.1 == trace;
      }
      i := i + 1;
    }
    assert probes[..i] == probes;
    TraceAlternates(m.engine, probes, m.limit);
    if m.engine == Initial {
      StateIsSettled(probes, m.limit);
      CountersAreTrailingRuns(probes, m.limit);
    }
  }
}
