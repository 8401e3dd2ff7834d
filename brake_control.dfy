/**
 * A brake controller as a four-state machine.
 *
 * The controller holds exactly one state, starts in Init and is advanced
 * one input sample at a time. Each sample carries two signals, a stop
 * command and an emergency stop. Every legal edge of the machine has its
 * own guard over the sample; a step commits at most one edge, trying the
 * edges of the current state in a fixed priority order, and otherwise
 * leaves the state as it is.
 */
module BrakeControl {

  /** The operating states. They carry no data: a state is its tag. */
  datatype State = Init | Idle | Braking | Emergency

  /** One sample of the environment's signals. */
  datatype Input = Input(commandStop: bool, emergencyStop: bool)

  /** The display name of a state, for observation only. */
  function StateName(s: State): string
  {
    match s
    case Init => "Init"
    case Idle => "Idle"
    case Braking => "Braking"
    case Emergency => "Emergency"
  }

  /** Two states never share a display name, so a name identifies its state. */
  lemma StateNameInjective(a: State, b: State)
    requires StateName(a) == StateName(b)
    ensures a == b
  {
  }

  // ---------------------------------------------------------------------
  // The declared edges and their guards
  // ---------------------------------------------------------------------

  /**
   * The edges the controller may take: one constructor per declared
   * transition capability. No other pair of states is connected.
   */
  datatype Edge = InitToIdle | IdleToBraking | IdleToEmergency | BrakingToIdle | EmergencyToIdle

  function Source(e: Edge): State
  {
    match e
    case InitToIdle => Init
    case IdleToBraking => Idle
    case IdleToEmergency => Idle
    case BrakingToIdle => Braking
    case EmergencyToIdle => Emergency
  }

  function Target(e: Edge): State
  {
    match e
    case InitToIdle => Idle
    case IdleToBraking => Braking
    case IdleToEmergency => Emergency
    case BrakingToIdle => Idle
    case EmergencyToIdle => Idle
  }

  /** Whether the edge's guard admits the sample. */
  predicate Guard(e: Edge, input: Input)
  {
    match e
    case InitToIdle => true
    case IdleToBraking => input.commandStop
    case IdleToEmergency => input.emergencyStop
    case BrakingToIdle => !input.commandStop
    case EmergencyToIdle => !input.emergencyStop
  }

  /** The edge leaves state `s` and its guard admits the sample. */
  predicate Enabled(e: Edge, s: State, input: Input)
  {
    Source(e) == s && Guard(e, input)
  }

  // ---------------------------------------------------------------------
  // One step, as a pure function
  // ---------------------------------------------------------------------

  /**
   * The state after one step from `s` on `input`: the branches of the
   * controller's step, in their order. From Idle, braking is tried before
   * emergency.
   */
  function Next(s: State, input: Input): (r: State)
    ensures r != Init
    ensures s == Braking ==> r != Emergency
    ensures s == Emergency ==> r != Braking
  {
    match s
    case Init => if Guard(InitToIdle, input) then Idle else Init
    case Idle =>
      if Guard(IdleToBraking, input) then Braking
      else if Guard(IdleToEmergency, input) then Emergency
      else Idle
    case Braking => if Guard(BrakingToIdle, input) then Idle else Braking
    case Emergency => if Guard(EmergencyToIdle, input) then Idle else Emergency
  }

  // ---------------------------------------------------------------------
  // The same step, read off a priority-ordered edge table
  // ---------------------------------------------------------------------

  /** All declared edges, each state's outgoing edges in priority order. */
  const PriorityOrder: seq<Edge> :=
    [InitToIdle, IdleToBraking, IdleToEmergency, BrakingToIdle, EmergencyToIdle]

  /** The target of the first edge of `edges` enabled from `s`, or `s` if there is none. */
  function FirstEnabled(edges: seq<Edge>, s: State, input: Input): State
  {
    if edges == [] then s
    else if Enabled(edges[0], s, input) then Target(edges[0])
    else FirstEnabled(edges[1..], s, input)
  }

  /** The earliest enabled edge in the table is the one taken. */
  lemma {:induction false} FirstEnabledIsEarliest(edges: seq<Edge>, s: State, input: Input, k: nat)
    requires k < |edges| && Enabled(edges[k], s, input)
    requires forall j :: 0 <= j < k ==> !Enabled(edges[j], s, input)
    ensures FirstEnabled(edges, s, input) == Target(edges[k])
  {
    if k > 0 {
      assert !Enabled(edges[0], s, input);
      FirstEnabledIsEarliest(edges[1..], s, input, k - 1);
    }
  }

  /** With no enabled edge in the table, the state is kept. */
  lemma {:induction false} FirstEnabledStays(edges: seq<Edge>, s: State, input: Input)
    requires forall j :: 0 <= j < |edges| ==> !Enabled(edges[j], s, input)
    ensures FirstEnabled(edges, s, input) == s
  {
    if edges != [] {
      assert !Enabled(edges[0], s, input);
      FirstEnabledStays(edges[1..], s, input);
    }
  }

  /** A changed state is always the target of some enabled edge of the table. */
  lemma {:induction false} FirstEnabledSound(edges: seq<Edge>, s: State, input: Input)
    ensures var r := FirstEnabled(edges, s, input);
      r == s || exists j :: 0 <= j < |edges| && Enabled(edges[j], s, input) && Target(edges[j]) == r
  {
    if edges != [] && !Enabled(edges[0], s, input) {
      FirstEnabledSound(edges[1..], s, input);
      var r := FirstEnabled(edges, s, input);
      if r != s {
        var j :| 0 <= j < |edges[1..]| && Enabled(edges[1..][j], s, input) && Target(edges[1..][j]) == r;
        assert edges[j + 1] == edges[1..][j];
      }
    }
  }

  /** The controller's branch chain agrees with the priority table, for every state and sample. */
  lemma NextMatchesTable(s: State, input: Input)
    ensures Next(s, input) == FirstEnabled(PriorityOrder, s, input)
  {
    var t := PriorityOrder;
    match s
    case Init =>
      FirstEnabledIsEarliest(t, s, input, 0);
    case Idle =>
      if input.commandStop {
        FirstEnabledIsEarliest(t, s, input, 1);
      } else if input.emergencyStop {
        FirstEnabledIsEarliest(t, s, input, 2);
      } else {
        FirstEnabledStays(t, s, input);
      }
    case Braking =>
      if !input.commandStop {
        FirstEnabledIsEarliest(t, s, input, 3);
      } else {
        FirstEnabledStays(t, s, input);
      }
    case Emergency =>
      if !input.emergencyStop {
        FirstEnabledIsEarliest(t, s, input, 4);
      } else {
        FirstEnabledStays(t, s, input);
      }
  }

  /** Every committed transition is one of the declared edges, taken only when its guard holds. */
  lemma NextTakesDeclaredEdge(s: State, input: Input)
    ensures Next(s, input) == s
      || exists e: Edge :: Enabled(e, s, input) && Target(e) == Next(s, input)
  {
    NextMatchesTable(s, input);
    FirstEnabledSound(PriorityOrder, s, input);
    if Next(s, input) != s {
      var j :| 0 <= j < |PriorityOrder| && Enabled(PriorityOrder[j], s, input)
        && Target(PriorityOrder[j]) == Next(s, input);
      assert Enabled(PriorityOrder[j], s, input);
    }
  }

  // ---------------------------------------------------------------------
  // What one step does from each state
  // ---------------------------------------------------------------------

  /** From Init the controller moves to Idle whatever the sample. */
  lemma FromInit(input: Input)
    ensures Next(Init, input) == Idle
  {
  }

  /** From Idle: the stop command wins over the emergency stop; with neither, Idle is kept. */
  lemma FromIdle(input: Input)
    ensures Next(Idle, input) == Braking <==> input.commandStop
    ensures Next(Idle, input) == Emergency <==> !input.commandStop && input.emergencyStop
    ensures Next(Idle, input) == Idle <==> !input.commandStop && !input.emergencyStop
  {
  }

  /** From Braking: back to Idle exactly when the stop command is cleared; the emergency stop is ignored. */
  lemma FromBraking(input: Input)
    ensures Next(Braking, input) == Idle <==> !input.commandStop
    ensures Next(Braking, input) == Braking <==> input.commandStop
    ensures Next(Braking, input) == Next(Braking, input.(emergencyStop := !input.emergencyStop))
  {
  }

  /** From Emergency: back to Idle exactly when the emergency stop is cleared; the stop command is ignored. */
  lemma FromEmergency(input: Input)
    ensures Next(Emergency, input) == Idle <==> !input.emergencyStop
    ensures Next(Emergency, input) == Emergency <==> input.emergencyStop
    ensures Next(Emergency, input) == Next(Emergency, input.(commandStop := !input.commandStop))
  {
  }

  // ---------------------------------------------------------------------
  // Runs of several steps
  // ---------------------------------------------------------------------

  /** The states visited, one per sample, when stepping from `s` through `inputs`. */
  function Run(s: State, inputs: seq<Input>): (trace: seq<State>)
    ensures |trace| == |inputs|
    ensures forall i :: 0 <= i < |trace| ==> trace[i] != Init
    ensures |inputs| > 0 ==> trace[0] == Next(s, inputs[0])
    ensures forall i :: 0 < i < |trace| ==> trace[i] == Next(trace[i - 1], inputs[i])
    decreases |inputs|
  {
    if inputs == [] then []
    else
      var r := Next(s, inputs[0]);
      [r] + Run(r, inputs[1..])
  }

  /** Pressing and then releasing the stop command brings Idle back to Idle. */
  lemma BrakeRoundTrip(press: Input, release: Input)
    requires press.commandStop && !release.commandStop
    ensures Run(Idle, [press, release]) == [Braking, Idle]
  {
  }

  /** Raising and then clearing the emergency stop, with no stop command, brings Idle back to Idle. */
  lemma EmergencyRoundTrip(raise: Input, clear: Input)
    requires !raise.commandStop && raise.emergencyStop && !clear.emergencyStop
    ensures Run(Idle, [raise, clear]) == [Emergency, Idle]
  {
  }

  /** The samples of the demonstration run, in order. */
  const DemoInputs: seq<Input> := [
    Input(false, false),
    Input(true, false),
    Input(false, false),
    Input(false, true),
    Input(false, false)
  ]

  /** The demonstration run visits Idle, Braking, Idle, Emergency, Idle. */
  lemma DemoTrace()
    ensures Run(Init, DemoInputs) == [Idle, Braking, Idle, Emergency, Idle]
  {
  }

  // ---------------------------------------------------------------------
  // The controller object
  // ---------------------------------------------------------------------

  /** Owns exactly one current state, changed only by Step. */
  class BrakeController {
    var state: State

    /** A new controller is in Init. */
    constructor ()
      ensures state == Init
    {
      state := Init;
    }

    /** The display name of the current state. */
    function CurrentStateName(): string
      reads this
    {
      StateName(state)
    }

    /**
     * Advances by one sample: the current state's guards are tried in
     * priority order and the first that holds replaces the state.
     */
    method Step(input: Input)
      modifies this
      ensures state == Next(old(state), input)
      ensures state != Init
    {
      if state == Init && Guard(InitToIdle, input) {
        state := Idle;
      } else if state == Idle {
        if Guard(IdleToBraking, input) {
          state := Braking;
        } else if Guard(IdleToEmergency, input) {
          state := Emergency;
        }
      } else if state == Braking {
        if Guard(BrakingToIdle, input) {
          state := Idle;
        }
      } else if state == Emergency {
        if Guard(EmergencyToIdle, input) {
          state := Idle;
        }
      }
    }
  }

  /**
   * The demonstration: a fresh controller stepped through the demo
   * samples, changing one signal between steps. Returns the state names
   * observed before the first step and after each step.
   */
  method Demo() returns (names: seq<string>)
    ensures names == ["Init", "Idle", "Braking", "Idle", "Emergency", "Idle"]
  {
    var controller := new BrakeController();
    var input := Input(false, false);
    names := [controller.CurrentStateName()];

    controller.Step(input);
    names := names + [controller.CurrentStateName()];

    input := input.(commandStop := true);
    controller.Step(input);
    names := names + [controller.CurrentStateName()];

    input := input.(commandStop := false);
    controller.Step(input);
    names := names + [controller.CurrentStateName()];

    input := input.(emergencyStop := true);
    controller.Step(input);
    names := names + [controller.CurrentStateName()];

    input := input.(emergencyStop := false);
    controller.Step(input);
    names := names + [controller.CurrentStateName()];
  }
}
