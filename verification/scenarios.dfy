/** Concrete ping histories and the transitions the loop of main() emits
    for them, tick by tick. */
module Scenarios {
  import opened Debounce

  /** Limit 3: the third success in a row confirms reachability; two
      failures after it change nothing, the third one confirms the loss. */
  lemma LimitThree()
    ensures Run(Initial, [true], 3).1 == []
    ensures Run(Initial, [true, true], 3).1 == []
    ensures Run(Initial, [true, true, true], 3).1 == [ToReachable]
    ensures Run(Initial, [true, true, true, false, false], 3).1 == [ToReachable]
    ensures Run(Initial, [true, true, true, false, false, false], 3).1 == [ToReachable, ToUnreachable]
    ensures Run(Initial, [true, true, true, false, false, false], 3).0 == Engine(Unreachable, 0, 3)
  {
    assert [ToReachable] + [] == [] + [ToReachable] == [ToReachable];
    assert Run(Initial, [true], 3) == (Engine(Unknown, 1, 0), []);
    assert DropLast([true, true]) == [true];
    assert Run(Initial, [true, true], 3) == (Engine(Unknown, 2, 0), []);
    assert DropLast([true, true, true]) == [true, true];
    assert Run(Initial, [true, true, true], 3) == (Engine(Reachable, 3, 0), [ToReachable]);
    assert DropLast([true, true, true, false]) == [true, true, true];
    assert Run(Initial, [true, true, true, false], 3) == (Engine(Reachable, 0, 1), [ToReachable]);
    assert DropLast([true, true, true, false, false]) == [true, true, true, false];
    assert Run(Initial, [true, true, true, false, false], 3) == (Engine(Reachable, 0, 2), [ToReachable]);
    assert DropLast([true, true, true, false, false, false]) == [true, true, true, false, false];
  }

  /** Limit 1: every result that disagrees with the confirmed state flips it. */
  lemma LimitOne()
    ensures Run(Initial, [true, false, true], 1).1 == [ToReachable, ToUnreachable, ToReachable]
    ensures Run(Initial, [true, false, true], 1).0 == Engine(Reachable, 1, 0)
  {
  }

  /** Limit 2 from the start: two failures confirm the loss, and further
      failures neither emit again nor return the state to unknown. */
  lemma LimitTwoFailures()
    ensures Run(Initial, [false], 2).0.state == Unknown
    ensures Run(Initial, [false, false], 2).1 == [ToUnreachable]
    ensures Run(Initial, [false, false, false, false], 2).1 == [ToUnreachable]
    ensures Run(Initial, [false, false, false, false], 2).0 == Engine(Unreachable, 0, 4)
  {
    assert [ToUnreachable] + [] == [] + [ToUnreachable] == [ToUnreachable];
    assert Run(Initial, [false], 2) == (Engine(Unknown, 0, 1), []);
    assert DropLast([false, false]) == [false];
    assert Run(Initial, [false, false], 2) == (Engine(Unreachable, 0, 2), [ToUnreachable]);
    assert DropLast([false, false, false]) == [false, false];
    assert Run(Initial, [false, false, false], 2) == (Engine(Unreachable, 0, 3), [ToUnreachable]);
    assert DropLast([false, false, false, false]) == [false, false, false];
  }

  /** Limit 0, accepted by the configuration reader: a single success from
      the start runs both sets of batch files and ends unreachable. */
  lemma LimitZero()
    ensures Run(Initial, [true], 0).1 == [ToReachable, ToUnreachable]
    ensures Run(Initial, [true], 0).0 == Engine(Unreachable, 1, 0)
    ensures Run(Initial, [true, true], 0).1 == [ToReachable, ToUnreachable, ToReachable, ToUnreachable]
  {
  }
}
