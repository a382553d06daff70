# Ping Starter debounce engine in Dafny

Ping Starter (`main.py`) pings one IP address at a fixed interval. Whenever
the host's confirmed reachability changes, it runs every `.bat` file in the
`reachable` or `not_reachable` folder. It debounces the raw ping results with
two consecutive-run counters (`consecutive_success`, `consecutive_failure`), a
three-valued `current_state` (`None`, `True` or `False`) and a threshold
`ping_limit`. A transition is confirmed only after `ping_limit` identical
results in a row, and only if it changes the state.

This project models that state machine as pure functions and proves its
properties for every ping history:

- `debounce.dfy`, module `Debounce`, holds the data model:
  - `Confirmed`: `Unknown`, `Reachable` or `Unreachable`.
  - `Transition`: `ToReachable` or `ToUnreachable`.
  - `Engine`: the state and the two counters.
  - `Step`: one iteration of the loop in `main()`.
  - `Run`: `Step` folded over a finite sequence of ping results.
- `history.dfy`, module `History`, relates the engine to the whole ping
  history through two reference definitions:
  - `TrailingRun`: how many results at the end of the history equal a given value.
  - `Settled`: the verdict of the latest block of `ping_limit` identical results.
- `monitor.dfy`, module `Monitor`, holds the loop around the engine:
  - a monitor that refuses a limit below one;
  - a one-tick `Observe` that returns at most one transition;
  - the loop `Watch`, which returns the folders it dispatches.
- `scenarios.dfy`, module `Scenarios`, holds concrete ping histories.

The two checks at main.py:104 and main.py:110 are two independent `if`s, not
an `if`/`else if`. The second check sees the state the first one may have
just set. `Debounce.Step` keeps this structure and accepts any integer limit,
because main.py never validates `ping_limit`. Mutual exclusion of the two
transitions is therefore a theorem that needs `ping_limit >= 1`, not a
property of the code's shape. With a limit of zero or less, both transitions
fire on every tick (see Findings).

## Model

| member | source | states |
|---|---|---|
| Debounce.Step | main.py:94-113 | On a successful ping, the success counter grows by one and the failure counter drops to 0, and the reverse on a failed ping. At most one counter is non-zero afterwards. `ToReachable` is emitted exactly when the new success count is at least the limit and the state was not `Reachable`. `ToUnreachable` is emitted exactly when the new failure count is at least the limit and the state (after the first check) is not `Unreachable`. The state becomes the target of the last transition emitted, or stays the same if none fired. No transition leads to the state it leaves. With a limit of at least 1, at most one transition fires per tick. |
| Debounce.Run | main.py:83-113 | After at least one ping, at most one counter is non-zero. There are at most two transitions per ping, and at most one per ping when the limit is at least 1. A state other than `Unknown` never becomes `Unknown` again. |
| History.RunAppend | main.py:87-113 | Running a history `xs + ys` gives the same engine as running `xs` and then `ys` from where it stopped. Its transitions are those of `xs` followed by those of `ys`: the loop carries nothing between ticks except the engine. |
| History.CountersAreTrailingRuns | main.py:84-85 | From the initial values, `consecutive_success` equals the number of trailing successful pings in the history. `consecutive_failure` equals the number of trailing failed pings. |
| History.StateIsSettled | main.py:83 | With a limit of at least 1, the confirmed state after any history is the verdict of the most recent prefix that ended in `ping_limit` identical results. It is `Unknown` if no prefix did. |
| History.TickEmission | main.py:104-113 | With a limit of at least 1, a tick emits the transition towards its ping's verdict exactly when two things hold: it completes a block of `ping_limit` identical results, and the state confirmed before it is different. Otherwise it emits nothing, whatever the earlier history. |
| History.TraceAlternates | main.py:104-112 | For any starting engine and any limit, no two consecutive transitions in a run are equal. The first transition leaves a state other than its target. The final state is the target of the last transition. With no transitions, the state is unchanged. |
| History.UnknownUntilFirstTransition | main.py:83-112 | From the start of `main()`, the state is `Unknown` exactly as long as no transition has been emitted. |
| History.ConfirmedStateIsStable | main.py:104-110 | With a limit of at least 1: once the state is the verdict of a result, any number of further equal results emits nothing and keeps the state. This holds even though the counters are never reset on a transition. |
| History.NonPositiveLimitFlaps | main.py:24 | As written, with `ping_limit <= 0`: from a state other than `Reachable`, every ping emits both transitions, so both folders run. The state never ends a tick as `Reachable`. |
| Monitor.NewMonitor | main.py:75-85 | A monitor is built exactly when the limit is at least 1. It starts in state `Unknown` with both counters at 0. For any limit it accepts, no engine state and ping result make one tick emit more than one transition. |
| Monitor.Observe | main.py:94-113 | With a valid limit, one tick reports `ToReachable` exactly when the ping succeeded, the previous success count plus one reaches the limit and the state was not `Reachable`. `ToUnreachable` is the mirror case. When something is reported, the state moves to its target, which differs from the previous state. Otherwise the state is kept. |
| Monitor.Watch | main.py:87-116 | The loop over a finite ping history dispatches one folder per transition, in order: `reachable` for `ToReachable`, `not_reachable` for `ToUnreachable`. It dispatches at most one folder per ping, and never the same folder twice in a row. From the initial engine, the final state is the settled verdict and the counters are the trailing runs. |
| Scenarios.LimitThree | main.py:94-113 | With limit 3: the third success in a row emits `ToReachable`. The next two failures emit nothing, and the third failure emits `ToUnreachable`. |
| Scenarios.LimitOne | main.py:94-113 | With limit 1: the pings success, failure, success emit `ToReachable`, `ToUnreachable`, `ToReachable`. |
| Scenarios.LimitTwoFailures | main.py:94-113 | With limit 2: two failures from the start emit `ToUnreachable` once. Further failures neither emit again nor bring back `Unknown`. |
| Scenarios.LimitZero | main.py:94-113 | With limit 0, one successful ping emits both transitions and ends in `Unreachable`. |

## Left out

- `read_settings` (main.py:16-27): reading `settings.ini` and parsing it with `int()` is file I/O. The limit is a parameter of the model, and the IP address and the interval are not modelled.
- `ping_host` (main.py:29-40): the ping itself goes through an external library. Its result, with exceptions counted as failures, is an arbitrary `bool` input.
- `execute_batch_files` (main.py:42-68): listing a folder and spawning processes are effects. The model stops at the folder name passed to it (`Monitor.Folder`).
- Timestamps, `print` logging, `time.sleep` and the `KeyboardInterrupt` handler (main.py:77-80, 89, 97, 101, 105, 111, 116, 118-124) are I/O and process control.
- The endless `while True` loop is modelled over finite ping histories of any length (`Debounce.Run`, `Monitor.Watch`). Every property of an infinite run concerns one of its finite prefixes.
- Python's integers are unbounded, so the counters are `nat` with no wrap-around.

## Findings

| source | as written | input that shows it | evidently intended | confidence | as-written member | corrected member |
|---|---|---|---|---|---|---|
| main.py:24 | `ping_limit` is parsed with `int()` and never checked, so a value of 0 or less reaches the checks at main.py:104 and main.py:110 | `ping_limit = 0` in `settings.ini`: the first ping emits `ToReachable` and then `ToUnreachable` in the same tick. Every later ping does the same, so both folders run on every tick | refuse a limit below one, so that a transition needs at least one agreeing ping and at most one transition fires per tick | medium; not executed | History.NonPositiveLimitFlaps | Monitor.NewMonitor |

The corrected definition is the `Monitor` module. `NewMonitor` builds a
monitor only for a limit of at least 1. `Observe` and `Watch` then work on
valid monitors, and every tick yields at most one transition (`Observe`
returns an `Option`). The as-written engine `Debounce.Step` is kept unchanged
for any limit.
