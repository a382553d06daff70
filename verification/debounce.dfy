/** The debounce state machine that main() in main.py runs once per ping:
    two consecutive-run counters, a three-valued confirmed state and the
    hysteresis threshold `ping_limit`. One tick of the `while True` loop is
    `Step`; the rest of the loop (timestamps, printing, sleeping, running the
    batch files) is not part of this module.
 */
module Debounce {

  /** The confirmed verdict held in `current_state`: Python's `None` is
      `Unknown`, `True` is `Reachable`, `False` is `Unreachable`. */
  datatype Confirmed = Unknown | Reachable | Unreachable

  /** The two state changes main() announces and acts upon. */
  datatype Transition = ToReachable | ToUnreachable

  /** The confirmed state a transition moves to. */
  function Target(t: Transition): Confirmed {
    match t
    case ToReachable => Reachable
    case ToUnreachable => Unreachable
  }

  /** The verdict a run of identical probe results argues for. */
  function Verdict(isReachable: bool): Confirmed {
    if isReachable then Reachable else Unreachable
  }

  /** The transition that moves to the verdict of `isReachable`. */
  function Edge(isReachable: bool): Transition {
    if isReachable then ToReachable else ToUnreachable
  }

  /** The loop's local variables `current_state`, `consecutive_success`
      and `consecutive_failure`. */
  datatype Engine = Engine(state: Confirmed, success: nat, failure: nat)

  /** The values main() starts the loop with. */
  const Initial: Engine := Engine(Unknown, 0, 0)

  /** At most one of the two counters is non-zero. */
  predicate Exclusive(e: Engine) {
    e.success == 0 || e.failure == 0
  }

  function Last<T>(s: seq<T>): T
    requires |s| > 0
  {
    s[|s| - 1]
  }

  function DropLast<T>(s: seq<T>): seq<T>
    requires |s| > 0
  {
    s[..|s| - 1]
  }

  /** No two neighbouring transitions of a trace are the same event. */
  predicate Alternates(ts: seq<Transition>) {
    forall i :: 0 < i < |ts| ==> ts[i - 1] != ts[i]
  }

  /** The counter update of one probe result. */
  function Count(e: Engine, isReachable: bool): Engine {
    if isReachable then e.(success := e.success + 1, failure := 0)
    else e.(failure := e.failure + 1, success := 0)
  }

  /** The first of the two independent checks after the counter update. */
  function CheckReachable(e: Engine, limit: int): (Engine, seq<Transition>) {
    if e.success >= limit && e.state != Reachable then (e.(state := Reachable), [ToReachable])
    else (e, [])
  }

  /** The second check; it sees the state the first check may have set. */
  function CheckUnreachable(e: Engine, limit: int): (Engine, seq<Transition>) {
    if e.failure >= limit && e.state != Unreachable then (e.(state := Unreachable), [ToUnreachable])
    else (e, [])
  }

  /** One iteration of the monitoring loop, given the probe result and the
      configured `ping_limit`. The limit is any integer: nothing upstream
      rejects a non-positive one, and then both checks fire in the same tick.
      The result is the new engine and the transitions emitted, in order. */
  function Step(e: Engine, isReachable: bool, limit: int): (r: (Engine, seq<Transition>))
    // counters: the agreeing one grows by one, the other is cleared
    ensures isReachable ==> r.0.success == e.success + 1 && r.0.failure == 0
    ensures !isReachable ==> r.0.failure == e.failure + 1 && r.0.success == 0
    ensures Exclusive(r.0)
    // the reachable check, and the unreachable check that follows it
    ensures ToReachable in r.1 <==> r.0.success >= limit && e.state != Reachable
    ensures ToUnreachable in r.1 <==> r.0.failure >= limit && (e.state != Unreachable || ToReachable in r.1)
    ensures |r.1| <= 2 && (|r.1| == 2 ==> r.1 == [ToReachable, ToUnreachable])
    // a transition never repeats the state it leaves, and the state follows the last one
    ensures r.1 != [] ==> Target(r.1[0]) != e.state
    ensures Alternates(r.1)
    ensures r.0.state == if r.1 == [] then e.state else Target(Last(r.1))
    // with a positive limit at most one transition per tick
    ensures limit >= 1 ==> |r.1| <= 1
    ensures limit >= 1 ==> (ToUnreachable in r.1 <==> r.0.failure >= limit && e.state != Unreachable)
  {
    var counted := Count(e, isReachable);
    var (afterFirst, first) := CheckReachable(counted, limit);
    var (afterSecond, second) := CheckUnreachable(afterFirst, limit);
    (afterSecond, first + second)
  }

  /** Repeated application of `Step` from `e` to a finite stream of probe
      results, oldest first; the emitted transitions are concatenated. */
  function Run(e: Engine, probes: seq<bool>, limit: int): (r: (Engine, seq<Transition>))
    decreases |probes|
    ensures probes == [] ==> r == (e, [])
    ensures probes != [] ==> Exclusive(r.0)
    ensures |r.1| <= 2 * |probes|
    ensures limit >= 1 ==> |r.1| <= |probes|
    ensures e.state != Unknown ==> r.0.state != Unknown
  {
    if probes == [] then (e, [])
    else
      var (mid, before) := Run(e, DropLast(probes), limit);
      var (next, now) := Step(mid, Last(probes), limit);
      (next, before + now)
  }
}
