# Brake controller state machine

A Dafny model of the brake controller in `first-try/src/main.rs`. It is a finite
state machine with four tag-only states: `Init`, `Idle`, `Braking` and `Emergency`.
Each input sample has two booleans, `command_stop` and `emergency_stop`. Five
declared transitions (`TransitionTo::success` impls) each carry a guard over the
sample. The controller owns one current state and starts in `Init`. Each `step` commits at
most one transition, trying the current state's edges in a fixed order: from
`Idle`, braking is tried before emergency. When no guard holds, the state is kept.

The model is one module, `BrakeControl` (`brake_control.dfy`):

- `State` and `Input` are datatypes. The Rust runtime type dispatch becomes a match on `State`.
- `Edge` has one constructor per declared transition. `Source`, `Target` and `Guard` give each edge's endpoints and its `success` predicate.
- `Next(s, input)` is the step as a pure function. It follows the branches of `step` in their order.
- `FirstEnabled(PriorityOrder, s, input)` is an independent reference. It takes the first enabled edge of a priority-ordered table. `NextMatchesTable` proves the branch chain equals it for every state and sample.
- `BrakeController` is a class with a `state` field. Its constructor starts in `Init`. `Step` overwrites `state` through the same if/else-if chain as the source. Its contract ties the new state to `Next` of the old one.
- `Run` is the list of states visited over a sequence of samples. `Demo` replays the demonstration in `main`. It returns the state names `main` prints instead of printing them.

`Next` and `Step` never look at a state's display name. They dispatch on the `State` value only, so renaming a display string cannot change any transition.

## Model

| member | source | states |
|---|---|---|
| `BrakeControl.StateNameInjective` | first-try/src/main.rs:31-65 | distinct states have distinct display names, so a name identifies its state |
| `BrakeControl.Next` | first-try/src/main.rs:110-128 | a step never enters `Init`, and never moves directly between `Braking` and `Emergency` |
| `BrakeControl.NextMatchesTable` | first-try/src/main.rs:68-128 | for every state and sample, the step's branch chain gives the same state as taking the first enabled edge of the priority table Init→Idle, Idle→Braking, Idle→Emergency, Braking→Idle, Emergency→Idle |
| `BrakeControl.FirstEnabledIsEarliest` | first-try/src/main.rs:113-118 | when several edges are enabled, the earliest in priority order is taken |
| `BrakeControl.FirstEnabledStays` | first-try/src/main.rs:113-127 | when no outgoing guard holds, the state is unchanged |
| `BrakeControl.FirstEnabledSound` | first-try/src/main.rs:68-96 | a changed state is always the target of a table edge that leaves the old state and whose guard holds |
| `BrakeControl.NextTakesDeclaredEdge` | first-try/src/main.rs:68-128 | every committed transition is one of the five declared edges, taken only when its guard holds |
| `BrakeControl.FromInit` | first-try/src/main.rs:111-112 | from `Init`, a step always yields `Idle`, whatever the sample |
| `BrakeControl.FromIdle` | first-try/src/main.rs:113-118 | from `Idle`: `Braking` iff `command_stop`, so braking wins when both signals are set; `Emergency` iff only `emergency_stop`; `Idle` iff neither |
| `BrakeControl.FromBraking` | first-try/src/main.rs:119-122 | from `Braking`: `Idle` iff `command_stop` is cleared, otherwise `Braking`; flipping `emergency_stop` changes nothing |
| `BrakeControl.FromEmergency` | first-try/src/main.rs:123-126 | from `Emergency`: `Idle` iff `emergency_stop` is cleared, otherwise `Emergency`; flipping `command_stop` changes nothing |
| `BrakeControl.Run` | first-try/src/main.rs:110-128 | repeated steps visit one state per sample; each is the step of the previous one, and none is `Init` |
| `BrakeControl.BrakeRoundTrip` | first-try/src/main.rs:153-161 | from `Idle`, setting then clearing `command_stop` passes through `Braking` and returns to `Idle` |
| `BrakeControl.EmergencyRoundTrip` | first-try/src/main.rs:163-171 | from `Idle`, setting then clearing `emergency_stop` (no stop command) passes through `Emergency` and returns to `Idle` |
| `BrakeControl.DemoTrace` | first-try/src/main.rs:137-171 | the demo samples (F,F), (T,F), (F,F), (F,T), (F,F) from `Init` visit Idle, Braking, Idle, Emergency, Idle |
| `BrakeControl.BrakeController.constructor` | first-try/src/main.rs:104-108 | a new controller is in `Init` |
| `BrakeControl.BrakeController.Step` | first-try/src/main.rs:110-128 | the new state is `Next` of the old state and the sample, and is never `Init` |
| `BrakeControl.Demo` | first-try/src/main.rs:137-171 | a fresh controller stepped through the demo observes the names Init, Idle, Braking, Idle, Emergency, Idle |

## Left out

- Console output (`print_current_state`, the printing in `main`) is I/O. `Demo` returns the observed names instead, and `BrakeController.CurrentStateName` gives the current name.
- The `Any`/`as_any`/`downcast_ref` dispatch and the `Box<dyn State>` allocation are Rust's encoding of a closed set of states. They are modelled as a match on the `State` datatype.
- Per-state action hooks are not in this source, so no action or invocation count is modelled.
- The `power_on`/`brake`/`e_stop` input variant, where `Init→Idle` is gated by `power_on`, is not in this source. Here `Init→Idle` is unconditional, as the code has it.
