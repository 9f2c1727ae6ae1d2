/** A model of the joystick teleoperation node of the Sumo robot.

    Each joystick report runs through five rising-edge detectors (a 90-degree turn
    axis, a 180-degree turn axis, a high-jump button, a posture button that cycles
    the posture, and an animation button).  Every detector that fires publishes one
    discrete command; when none fires, one velocity command built from the scaled
    axes is published instead.

    The first half of the module is the specification, written on values: the
    configuration, the arbitrator state, the per-detector conditions and what one
    report emits and leaves behind.  The second half is the node itself, a class
    whose fields are the process-wide globals of the C++ node and whose callback
    updates them step by step.
 */
module TeleopJoy {

  //////////////////////////////////////////////////////////////////////////////
  // Values

  datatype Option<T> = None | Some(value: T)

  /** Turn angles are kept symbolic, as rational multiples of pi. */
  const HalfPi: real := 0.5
  const TwoPi: real := 2.0
  const Pi: real := 1.0

  /** An axis counts as deflected when its magnitude exceeds this. */
  const Threshold: real := 0.9

  /** The commands the node publishes, one constructor per topic. */
  datatype Command =
    | SharpTurn(piTimes: real)              // sharp_turn: angle = piTimes * pi radians
    | HighJump                              // high_jump: no payload
    | SetPosture(posture: string)           // set_posture
    | Anim(name: string)                    // anim
    | CmdVel(linear: real, angular: real)   // cmd_vel: linear.x and angular.z

  /** One joystick report: axis readings and button states (nonzero = pressed). */
  datatype Joy = Joy(axes: seq<real>, buttons: seq<int>)

  /** The node's parameters: which axis or button drives what, and the velocity scales. */
  datatype Config = Config(
    axisLinear: int, axisAngular: int, axis90Turn: int, axis180Turn: int,
    buttonHighJump: int, buttonPosture: int, buttonAnim: int,
    scaleLinear: real, scaleAngular: real)
  {
    /** The C++ node never checks the configured indices; the model asks for this. */
    predicate IndicesNonNegative() {
      axisLinear >= 0 && axisAngular >= 0 && axis90Turn >= 0 && axis180Turn >= 0 &&
      buttonHighJump >= 0 && buttonPosture >= 0 && buttonAnim >= 0
    }

    /** The largest configured axis index (maxaxis). */
    function MaxAxis(): (m: int)
      ensures m >= axisLinear && m >= axisAngular && m >= axis90Turn && m >= axis180Turn
      ensures m == axisLinear || m == axisAngular || m == axis90Turn || m == axis180Turn
    {
      Max(axisLinear, Max(axisAngular, Max(axis90Turn, axis180Turn)))
    }

    /** The largest configured button index (maxbutton). */
    function MaxButton(): (m: int)
      ensures m >= buttonHighJump && m >= buttonPosture && m >= buttonAnim
      ensures m == buttonHighJump || m == buttonPosture || m == buttonAnim
    {
      Max(buttonAnim, Max(buttonHighJump, buttonPosture))
    }
  }

  function Max(a: int, b: int): int {
    if a < b then b else a
  }

  /** The parameter defaults the node starts from. */
  const DefaultConfig: Config := Config(1, 2, 3, 4, 1, 2, 3, 1.0, 1.0)

  /** The state kept between reports: one "before" flag per detector and the posture. */
  datatype ArbState = ArbState(
    axis90Before: bool, axis180Before: bool,
    highJumpBefore: bool, postureBefore: bool, animBefore: bool,
    posture: string)

  const InitialState: ArbState := ArbState(false, false, false, false, false, "jumper")

  const Postures: set<string> := {"standing", "jumper", "kicker"}

  /** The posture cycle: standing, jumper, kicker, and anything else restarts at standing. */
  function NextPosture(p: string): (r: string)
    ensures r in Postures
    ensures r != p
    ensures p !in Postures ==> r == "standing"
  {
    if p == "standing" then "jumper"
    else if p == "jumper" then "kicker"
    else "standing"
  }

  function Abs(x: real): real {
    if x < 0.0 then -x else x
  }

  //////////////////////////////////////////////////////////////////////////////
  // One report, detector by detector

  /** The five edge detectors, in the order the callback runs them. */
  datatype Detector = Turn90 | Turn180 | HighJumpButton | PostureButton | AnimButton

  const Detectors: seq<Detector> := [Turn90, Turn180, HighJumpButton, PostureButton, AnimButton]

  /** A report is processed only when every configured index is within it. */
  predicate Accepted(cfg: Config, joy: Joy) {
    |joy.axes| > cfg.MaxAxis() && |joy.buttons| > cfg.MaxButton()
  }

  /** The level each detector sees in this report (its "now" value). */
  predicate Condition(cfg: Config, joy: Joy, d: Detector)
    requires cfg.IndicesNonNegative() && Accepted(cfg, joy)
  {
    match d
    case Turn90 => Abs(joy.axes[cfg.axis90Turn]) > Threshold
    case Turn180 => Abs(joy.axes[cfg.axis180Turn]) > Threshold
    case HighJumpButton => joy.buttons[cfg.buttonHighJump] != 0
    case PostureButton => joy.buttons[cfg.buttonPosture] != 0
    case AnimButton => joy.buttons[cfg.buttonAnim] != 0
  }

  /** The level each detector saw in the previous accepted report. */
  predicate Before(s: ArbState, d: Detector) {
    match d
    case Turn90 => s.axis90Before
    case Turn180 => s.axis180Before
    case HighJumpButton => s.highJumpBefore
    case PostureButton => s.postureBefore
    case AnimButton => s.animBefore
  }

  /** A detector fires on the idle-to-active transition only. */
  predicate Rising(cfg: Config, s: ArbState, joy: Joy, d: Detector)
    requires cfg.IndicesNonNegative() && Accepted(cfg, joy)
  {
    Condition(cfg, joy, d) && !Before(s, d)
  }

  /** The command a detector publishes when it fires. */
  function DetectorCommand(cfg: Config, s: ArbState, joy: Joy, d: Detector): (c: Command)
    requires cfg.IndicesNonNegative() && Accepted(cfg, joy)
    ensures Origin(c) == Some(d)
  {
    match d
    case Turn90 => SharpTurn(if joy.axes[cfg.axis90Turn] < 0.0 then HalfPi else -HalfPi)
    case Turn180 => SharpTurn(if joy.axes[cfg.axis180Turn] > 0.0 then TwoPi else -Pi)
    case HighJumpButton => HighJump
    case PostureButton => SetPosture(NextPosture(s.posture))
    case AnimButton => Anim("tap")
  }

  /** The detector whose command `c` can be, if any: each angle belongs to one turn. */
  function Origin(c: Command): Option<Detector> {
    match c
    case SharpTurn(a) =>
      if a == HalfPi || a == -HalfPi then Some(Turn90)
      else if a == TwoPi || a == -Pi then Some(Turn180)
      else None
    case HighJump => Some(HighJumpButton)
    case SetPosture(_) => Some(PostureButton)
    case Anim(_) => Some(AnimButton)
    case CmdVel(_, _) => None
  }

  /** The velocity command built from the raw (not thresholded) axes. */
  function Velocity(cfg: Config, joy: Joy): (c: Command)
    requires cfg.IndicesNonNegative() && Accepted(cfg, joy)
    ensures c.CmdVel? && Origin(c) == None
  {
    CmdVel(joy.axes[cfg.axisLinear] * cfg.scaleLinear, joy.axes[cfg.axisAngular] * cfg.scaleAngular)
  }

  /** What one detector contributes: its command on a rising edge, nothing otherwise. */
  function Fired(cfg: Config, s: ArbState, joy: Joy, d: Detector): seq<Command>
    requires cfg.IndicesNonNegative() && Accepted(cfg, joy)
  {
    if Rising(cfg, s, joy, d) then [DetectorCommand(cfg, s, joy, d)] else []
  }

  /** Some detector fires on this report. */
  predicate AnyRising(cfg: Config, s: ArbState, joy: Joy)
    requires cfg.IndicesNonNegative() && Accepted(cfg, joy)
  {
    Rising(cfg, s, joy, Turn90) || Rising(cfg, s, joy, Turn180) || Rising(cfg, s, joy, HighJumpButton) ||
    Rising(cfg, s, joy, PostureButton) || Rising(cfg, s, joy, AnimButton)
  }

  /** `c` is the command of a detector that fires on this report. */
  predicate FromRisingDetector(cfg: Config, s: ArbState, joy: Joy, c: Command)
    requires cfg.IndicesNonNegative() && Accepted(cfg, joy)
  {
    Origin(c).Some? && Rising(cfg, s, joy, Origin(c).value) && c == DetectorCommand(cfg, s, joy, Origin(c).value)
  }

  /** The discrete commands of detectors `ds`, in their order. */
  function DiscreteCommands(cfg: Config, s: ArbState, joy: Joy, ds: seq<Detector>): (r: seq<Command>)
    requires cfg.IndicesNonNegative() && Accepted(cfg, joy)
    ensures |r| <= |ds|
  {
    if ds == [] then []
    else Fired(cfg, s, joy, ds[0]) + DiscreteCommands(cfg, s, joy, ds[1..])
  }

  /** Each discrete command comes from a firing detector of `ds`, and each firing
      detector of `ds` contributes its command. */
  lemma {:induction false} DiscreteCommandsMembers(cfg: Config, s: ArbState, joy: Joy, ds: seq<Detector>)
    requires cfg.IndicesNonNegative() && Accepted(cfg, joy)
    ensures forall c :: c in DiscreteCommands(cfg, s, joy, ds) ==>
      FromRisingDetector(cfg, s, joy, c) && Origin(c).value in ds
    ensures forall d :: d in ds ==>
      (DetectorCommand(cfg, s, joy, d) in DiscreteCommands(cfg, s, joy, ds) <==> Rising(cfg, s, joy, d))
  {
    if ds != [] {
      DiscreteCommandsMembers(cfg, s, joy, ds[1..]);
    }
  }

  /** How many of the commands `cs` belong to detector `d`. */
  function CountFrom(cs: seq<Command>, d: Detector): nat
    decreases |cs|
  {
    if cs == [] then 0
    else (if Origin(cs[0]) == Some(d) then 1 else 0) + CountFrom(cs[1..], d)
  }

  lemma {:induction false} CountFromAppend(a: seq<Command>, b: seq<Command>, d: Detector)
    ensures CountFrom(a + b, d) == CountFrom(a, d) + CountFrom(b, d)
    decreases |a|
  {
    if a == [] {
      assert a + b == b;
    } else {
      assert (a + b)[0] == a[0] && (a + b)[1..] == a[1..] + b;
      CountFromAppend(a[1..], b, d);
    }
  }

  lemma CountFromSingle(c: Command, d: Detector)
    ensures CountFrom([c], d) == if Origin(c) == Some(d) then 1 else 0
  {
    assert [c][1..] == [];
  }

  /** Detector `d` contributes one command per occurrence in `ds` when it fires, and
      none otherwise. */
  lemma {:induction false} DiscreteCount(cfg: Config, s: ArbState, joy: Joy, ds: seq<Detector>, d: Detector)
    requires cfg.IndicesNonNegative() && Accepted(cfg, joy)
    ensures CountFrom(DiscreteCommands(cfg, s, joy, ds), d) == if Rising(cfg, s, joy, d) then multiset(ds)[d] else 0
    decreases |ds|
  {
    if ds != [] {
      assert multiset(ds)[d] == multiset([ds[0]])[d] + multiset(ds[1..])[d] by {
        assert ds == [ds[0]] + ds[1..];
      }
      CountFromAppend(Fired(cfg, s, joy, ds[0]), DiscreteCommands(cfg, s, joy, ds[1..]), d);
      FiredCount(cfg, s, joy, ds[0], d);
      DiscreteCount(cfg, s, joy, ds[1..], d);
    }
  }

  /** A detector's contribution belongs to it alone. */
  lemma FiredCount(cfg: Config, s: ArbState, joy: Joy, e: Detector, d: Detector)
    requires cfg.IndicesNonNegative() && Accepted(cfg, joy)
    ensures CountFrom(Fired(cfg, s, joy, e), d) == if e == d && Rising(cfg, s, joy, d) then 1 else 0
  {
    if Rising(cfg, s, joy, e) {
      CountFromSingle(DetectorCommand(cfg, s, joy, e), d);
    }
  }

  /** Every detector appears exactly once in the priority list. */
  lemma DetectorsOnce(d: Detector)
    ensures multiset(Detectors)[d] == 1
  {
    assert Detectors == [Turn90] + [Turn180] + [HighJumpButton] + [PostureButton] + [AnimButton];
  }

  lemma RisingIsAny(cfg: Config, s: ArbState, joy: Joy, d: Detector)
    requires cfg.IndicesNonNegative() && Accepted(cfg, joy)
    requires Rising(cfg, s, joy, d)
    ensures AnyRising(cfg, s, joy)
  {
    match d
    case Turn90 =>
    case Turn180 =>
    case HighJumpButton =>
    case PostureButton =>
    case AnimButton =>
  }

  lemma AllDetectorsListed()
    ensures forall d :: d in Detectors
  {
    forall d ensures d in Detectors {
      match d
      case Turn90 => assert Detectors[0] == d;
      case Turn180 => assert Detectors[1] == d;
      case HighJumpButton => assert Detectors[2] == d;
      case PostureButton => assert Detectors[3] == d;
      case AnimButton => assert Detectors[4] == d;
    }
  }

  /** Everything one report publishes, in order: nothing for a rejected report; the
      command of every detector that fires; the velocity command alone when none does. */
  function Emitted(cfg: Config, s: ArbState, joy: Joy): (r: seq<Command>)
    requires cfg.IndicesNonNegative()
    ensures !Accepted(cfg, joy) ==> r == []
    ensures Accepted(cfg, joy) ==> 1 <= |r| <= 5
  {
    if !Accepted(cfg, joy) then []
    else
      var discrete := DiscreteCommands(cfg, s, joy, Detectors);
      if discrete == [] then [Velocity(cfg, joy)] else discrete
  }

  /** The state after one report: a rejected report changes nothing; otherwise each
      flag takes its detector's current level and the posture advances on its edge. */
  function After(cfg: Config, s: ArbState, joy: Joy): (r: ArbState)
    requires cfg.IndicesNonNegative()
    ensures !Accepted(cfg, joy) ==> r == s
  {
    if !Accepted(cfg, joy) then s
    else
      ArbState(
        Condition(cfg, joy, Turn90), Condition(cfg, joy, Turn180),
        Condition(cfg, joy, HighJumpButton), Condition(cfg, joy, PostureButton),
        Condition(cfg, joy, AnimButton),
        if Rising(cfg, s, joy, PostureButton) then NextPosture(s.posture) else s.posture)
  }

  /** What an accepted report publishes: exactly the commands of the detectors that
      fire, and the velocity command alone when none fires. */
  lemma EmittedCommands(cfg: Config, s: ArbState, joy: Joy)
    requires cfg.IndicesNonNegative() && Accepted(cfg, joy)
    ensures forall d :: DetectorCommand(cfg, s, joy, d) in Emitted(cfg, s, joy) <==> Rising(cfg, s, joy, d)
    ensures forall c :: c in Emitted(cfg, s, joy) ==>
      FromRisingDetector(cfg, s, joy, c) || (c == Velocity(cfg, joy) && !AnyRising(cfg, s, joy))
    ensures !AnyRising(cfg, s, joy) <==> Emitted(cfg, s, joy) == [Velocity(cfg, joy)]
  {
    var discrete := DiscreteCommands(cfg, s, joy, Detectors);
    AllDetectorsListed();
    DiscreteCommandsMembers(cfg, s, joy, Detectors);
    if discrete != [] {
      assert FromRisingDetector(cfg, s, joy, discrete[0]);
      RisingIsAny(cfg, s, joy, Origin(discrete[0]).value);
    }
  }

  /** One report publishes exactly one command of detector `d` when `d` fires on it,
      and none otherwise. */
  lemma EmittedCount(cfg: Config, s: ArbState, joy: Joy, d: Detector)
    requires cfg.IndicesNonNegative()
    ensures CountFrom(Emitted(cfg, s, joy), d) == if Accepted(cfg, joy) && Rising(cfg, s, joy, d) then 1 else 0
  {
    var r := Emitted(cfg, s, joy);
    if !Accepted(cfg, joy) {
      assert r == [];
      assert CountFrom(r, d) == 0;
    } else {
      var discrete := DiscreteCommands(cfg, s, joy, Detectors);
      DiscreteCount(cfg, s, joy, Detectors, d);
      DetectorsOnce(d);
      assert CountFrom(discrete, d) == if Rising(cfg, s, joy, d) then 1 else 0;
      if discrete == [] {
        assert r == [Velocity(cfg, joy)];
        CountFromSingle(Velocity(cfg, joy), d);
        assert CountFrom(r, d) == 0;
      } else {
        assert r == discrete;
      }
      assert CountFrom(r, d) == if Rising(cfg, s, joy, d) then 1 else 0;
    }
  }

  /** After an accepted report each "before" flag equals its detector's current level,
      and the posture has advanced exactly when the posture button rose. */
  lemma AfterRecordsLevels(cfg: Config, s: ArbState, joy: Joy)
    requires cfg.IndicesNonNegative() && Accepted(cfg, joy)
    ensures forall d :: Before(After(cfg, s, joy), d) == Condition(cfg, joy, d)
    ensures After(cfg, s, joy).posture ==
      if Rising(cfg, s, joy, PostureButton) then NextPosture(s.posture) else s.posture
    ensures Rising(cfg, s, joy, PostureButton) ==> SetPosture(After(cfg, s, joy).posture) in Emitted(cfg, s, joy)
  {
    EmittedCommands(cfg, s, joy);
  }

  //////////////////////////////////////////////////////////////////////////////
  // Properties of one report

  /** After an accepted report every configured index is within the report. */
  lemma AcceptedIndicesInBounds(cfg: Config, joy: Joy)
    requires cfg.IndicesNonNegative() && Accepted(cfg, joy)
    ensures 0 <= cfg.axisLinear < |joy.axes| && 0 <= cfg.axisAngular < |joy.axes|
    ensures 0 <= cfg.axis90Turn < |joy.axes| && 0 <= cfg.axis180Turn < |joy.axes|
    ensures 0 <= cfg.buttonHighJump < |joy.buttons| && 0 <= cfg.buttonPosture < |joy.buttons|
    ensures 0 <= cfg.buttonAnim < |joy.buttons|
  {
  }

  /** The 90-degree turn: +pi/2 for a negative reading, -pi/2 for a positive one,
      each only when the axis was idle before. */
  lemma Turn90Edge(cfg: Config, s: ArbState, joy: Joy)
    requires cfg.IndicesNonNegative() && Accepted(cfg, joy)
    ensures SharpTurn(HalfPi) in Emitted(cfg, s, joy) <==>
      joy.axes[cfg.axis90Turn] < -Threshold && !s.axis90Before
    ensures SharpTurn(-HalfPi) in Emitted(cfg, s, joy) <==>
      joy.axes[cfg.axis90Turn] > Threshold && !s.axis90Before
  {
    var r := Emitted(cfg, s, joy);
    EmittedCommands(cfg, s, joy);
    assert DetectorCommand(cfg, s, joy, Turn90) in r <==> Rising(cfg, s, joy, Turn90);
    assert SharpTurn(HalfPi) in r ==> FromRisingDetector(cfg, s, joy, SharpTurn(HalfPi));
    assert SharpTurn(-HalfPi) in r ==> FromRisingDetector(cfg, s, joy, SharpTurn(-HalfPi));
  }

  /** The 180-degree turn: +2pi for a positive reading, -pi for a negative one. */
  lemma Turn180Edge(cfg: Config, s: ArbState, joy: Joy)
    requires cfg.IndicesNonNegative() && Accepted(cfg, joy)
    ensures SharpTurn(TwoPi) in Emitted(cfg, s, joy) <==>
      joy.axes[cfg.axis180Turn] > Threshold && !s.axis180Before
    ensures SharpTurn(-Pi) in Emitted(cfg, s, joy) <==>
      joy.axes[cfg.axis180Turn] < -Threshold && !s.axis180Before
  {
    var r := Emitted(cfg, s, joy);
    EmittedCommands(cfg, s, joy);
    assert DetectorCommand(cfg, s, joy, Turn180) in r <==> Rising(cfg, s, joy, Turn180);
    assert SharpTurn(TwoPi) in r ==> FromRisingDetector(cfg, s, joy, SharpTurn(TwoPi));
    assert SharpTurn(-Pi) in r ==> FromRisingDetector(cfg, s, joy, SharpTurn(-Pi));
  }

  /** The jump and animation buttons: one payload-free jump, and always "tap". */
  lemma JumpAndAnimEdges(cfg: Config, s: ArbState, joy: Joy)
    requires cfg.IndicesNonNegative() && Accepted(cfg, joy)
    ensures HighJump in Emitted(cfg, s, joy) <==>
      joy.buttons[cfg.buttonHighJump] != 0 && !s.highJumpBefore
    ensures Anim("tap") in Emitted(cfg, s, joy) <==>
      joy.buttons[cfg.buttonAnim] != 0 && !s.animBefore
    ensures forall c :: c in Emitted(cfg, s, joy) && c.Anim? ==> c.name == "tap"
  {
    var r := Emitted(cfg, s, joy);
    EmittedCommands(cfg, s, joy);
    assert DetectorCommand(cfg, s, joy, HighJumpButton) in r <==> Rising(cfg, s, joy, HighJumpButton);
    assert DetectorCommand(cfg, s, joy, AnimButton) in r <==> Rising(cfg, s, joy, AnimButton);
    forall c | c in r && c.Anim? ensures c.name == "tap" {
      assert FromRisingDetector(cfg, s, joy, c);
    }
  }

  /** The posture button publishes the advanced posture, and only that one. */
  lemma PostureEdge(cfg: Config, s: ArbState, joy: Joy, p: string)
    requires cfg.IndicesNonNegative() && Accepted(cfg, joy)
    ensures SetPosture(p) in Emitted(cfg, s, joy) <==>
      joy.buttons[cfg.buttonPosture] != 0 && !s.postureBefore && p == NextPosture(s.posture)
  {
    var r := Emitted(cfg, s, joy);
    EmittedCommands(cfg, s, joy);
    assert DetectorCommand(cfg, s, joy, PostureButton) in r <==> Rising(cfg, s, joy, PostureButton);
    assert SetPosture(p) in r ==> FromRisingDetector(cfg, s, joy, SetPosture(p));
  }

  /** A velocity command is published exactly when no detector fired, and then alone. */
  lemma VelocityFallback(cfg: Config, s: ArbState, joy: Joy, lin: real, ang: real)
    requires cfg.IndicesNonNegative() && Accepted(cfg, joy)
    ensures CmdVel(lin, ang) in Emitted(cfg, s, joy) <==>
      !AnyRising(cfg, s, joy) &&
      lin == joy.axes[cfg.axisLinear] * cfg.scaleLinear &&
      ang == joy.axes[cfg.axisAngular] * cfg.scaleAngular
    ensures CmdVel(lin, ang) in Emitted(cfg, s, joy) ==> Emitted(cfg, s, joy) == [CmdVel(lin, ang)]
  {
    var r := Emitted(cfg, s, joy);
    EmittedCommands(cfg, s, joy);
    if CmdVel(lin, ang) in r {
      assert !FromRisingDetector(cfg, s, joy, CmdVel(lin, ang));
    } else if !AnyRising(cfg, s, joy) {
      assert r == [Velocity(cfg, joy)];
      assert Velocity(cfg, joy) != CmdVel(lin, ang);
    }
  }

  /** The posture cycle runs standing, jumper, kicker, and has period three on the
      known postures. */
  lemma PostureCycle(p: string)
    requires p in Postures
    ensures NextPosture("standing") == "jumper" && NextPosture("jumper") == "kicker"
    ensures NextPosture("kicker") == "standing"
    ensures NextPosture(NextPosture(NextPosture(p))) == p
  {
  }

  //////////////////////////////////////////////////////////////////////////////
  // Runs of reports

  /** The state after processing `joys` in order. */
  function RunState(cfg: Config, s: ArbState, joys: seq<Joy>): ArbState
    requires cfg.IndicesNonNegative()
    decreases |joys|
  {
    if joys == [] then s else RunState(cfg, After(cfg, s, joys[0]), joys[1..])
  }

  /** Everything published while processing `joys` in order. */
  function RunOutput(cfg: Config, s: ArbState, joys: seq<Joy>): seq<Command>
    requires cfg.IndicesNonNegative()
    decreases |joys|
  {
    if joys == [] then []
    else Emitted(cfg, s, joys[0]) + RunOutput(cfg, After(cfg, s, joys[0]), joys[1..])
  }

  /** On how many of the reports `joys` detector `d` fired. */
  function FireCount(cfg: Config, s: ArbState, joys: seq<Joy>, d: Detector): nat
    requires cfg.IndicesNonNegative()
    decreases |joys|
  {
    if joys == [] then 0
    else
      (if Accepted(cfg, joys[0]) && Rising(cfg, s, joys[0], d) then 1 else 0) +
      FireCount(cfg, After(cfg, s, joys[0]), joys[1..], d)
  }

  /** Every report is accepted and holds detector `d` active. */
  predicate Held(cfg: Config, joys: seq<Joy>, d: Detector)
    requires cfg.IndicesNonNegative()
  {
    forall i :: 0 <= i < |joys| ==> Accepted(cfg, joys[i]) && Condition(cfg, joys[i], d)
  }

  /** Holding an input across accepted reports fires it at most once: on the first
      report if it was idle before, never if it was already active. */
  lemma {:induction false} HeldFiresOnce(cfg: Config, s: ArbState, joys: seq<Joy>, d: Detector)
    requires cfg.IndicesNonNegative() && Held(cfg, joys, d)
    ensures FireCount(cfg, s, joys, d) == if joys == [] || Before(s, d) then 0 else 1
    ensures joys != [] ==> (Rising(cfg, s, joys[0], d) <==> !Before(s, d))
    ensures joys != [] ==> Before(RunState(cfg, s, joys), d)
    decreases |joys|
  {
    if joys != [] {
      var s' := After(cfg, s, joys[0]);
      assert Before(s', d);
      assert Held(cfg, joys[1..], d) by {
        forall i | 0 <= i < |joys[1..]| ensures Accepted(cfg, joys[1..][i]) && Condition(cfg, joys[1..][i], d) {
          assert joys[1..][i] == joys[i + 1];
        }
      }
      HeldFiresOnce(cfg, s', joys[1..], d);
    }
  }

  /** Over any run, the commands published for detector `d` are exactly its firings. */
  lemma {:induction false} RunCount(cfg: Config, s: ArbState, joys: seq<Joy>, d: Detector)
    requires cfg.IndicesNonNegative()
    ensures CountFrom(RunOutput(cfg, s, joys), d) == FireCount(cfg, s, joys, d)
    decreases |joys|
  {
    if joys != [] {
      var s' := After(cfg, s, joys[0]);
      CountFromAppend(Emitted(cfg, s, joys[0]), RunOutput(cfg, s', joys[1..]), d);
      EmittedCount(cfg, s, joys[0], d);
      RunCount(cfg, s', joys[1..], d);
    }
  }

  /** Holding an input over accepted reports publishes exactly one command for it, on the
      first report, when it was idle before; none when it was already active. */
  lemma HeldPublishesOnce(cfg: Config, s: ArbState, joys: seq<Joy>, d: Detector)
    requires cfg.IndicesNonNegative() && Held(cfg, joys, d)
    ensures CountFrom(RunOutput(cfg, s, joys), d) == if joys == [] || Before(s, d) then 0 else 1
    ensures joys != [] && !Before(s, d) ==> DetectorCommand(cfg, s, joys[0], d) in Emitted(cfg, s, joys[0])
  {
    HeldFiresOnce(cfg, s, joys, d);
    RunCount(cfg, s, joys, d);
    if joys != [] {
      assert Accepted(cfg, joys[0]);
      EmittedCommands(cfg, s, joys[0]);
    }
  }

  /** Rejected reports anywhere in a run change neither the state nor the output. */
  lemma {:induction false} RejectedRunIsSilent(cfg: Config, s: ArbState, joys: seq<Joy>)
    requires cfg.IndicesNonNegative()
    requires forall i :: 0 <= i < |joys| ==> !Accepted(cfg, joys[i])
    ensures RunState(cfg, s, joys) == s && RunOutput(cfg, s, joys) == []
    decreases |joys|
  {
    if joys != [] {
      RejectedRunIsSilent(cfg, s, joys[1..]);
    }
  }

  /** The posture after a run is the initial one advanced once per posture edge. */
  function AdvancePosture(p: string, k: nat): string
    decreases k
  {
    if k == 0 then p else AdvancePosture(NextPosture(p), k - 1)
  }

  lemma {:induction false} PostureFollowsEdges(cfg: Config, s: ArbState, joys: seq<Joy>)
    requires cfg.IndicesNonNegative()
    ensures RunState(cfg, s, joys).posture == AdvancePosture(s.posture, FireCount(cfg, s, joys, PostureButton))
    decreases |joys|
  {
    if joys != [] {
      var s' := After(cfg, s, joys[0]);
      PostureFollowsEdges(cfg, s', joys[1..]);
    }
  }

  /** From the initial "jumper", three posture edges lead back to "jumper". */
  lemma ThreePostureEdgesReturn(cfg: Config, joys: seq<Joy>)
    requires cfg.IndicesNonNegative()
    requires FireCount(cfg, InitialState, joys, PostureButton) == 3
    ensures RunState(cfg, InitialState, joys).posture == "jumper"
  {
    PostureFollowsEdges(cfg, InitialState, joys);
  }

  //////////////////////////////////////////////////////////////////////////////
  // The node

  /** The node's process-wide state; `published` is everything sent on its topics. */
  class Arbitrator {
    const config: Config
    var axis90Before: bool
    var axis180Before: bool
    var highJumpBefore: bool
    var postureBefore: bool
    var animBefore: bool
    var posture: string
    var published: seq<Command>

    function State(): ArbState
      reads this
    {
      ArbState(axis90Before, axis180Before, highJumpBefore, postureBefore, animBefore, posture)
    }

    constructor (cfg: Config)
      requires cfg.IndicesNonNegative()
      ensures config == cfg && State() == InitialState && published == []
    {
      config := cfg;
      axis90Before, axis180Before := false, false;
      highJumpBefore, postureBefore, animBefore := false, false, false;
      posture := "jumper";
      published := [];
    }

    /** Handles one joystick report: drop it if it is too short, run the five
        detectors in order, and fall back to a velocity command if none fired. */
    method JoyCallback(joy: Joy)
      requires config.IndicesNonNegative()
      modifies this
      ensures published == old(published) + Emitted(config, old(State()), joy)
      ensures State() == After(config, old(State()), joy)
    {
      var naxes, nbuttons := |joy.axes|, |joy.buttons|;
      if naxes <= config.MaxAxis() {
        return;
      }
      if nbuttons <= config.MaxButton() {
        return;
      }
      ghost var s := State();
      var commandSent := RunDetectors(joy, s);
      DetectorsCompose(config, s, joy, old(published), published, commandSent);
      // velocity fallback when no detector fired
      if commandSent {
        return;
      }
      assert Velocity(config, joy) == CmdVel(joy.axes[config.axisLinear] * config.scaleLinear,
                                             joy.axes[config.axisAngular] * config.scaleAngular);
      published := published + [CmdVel(joy.axes[config.axisLinear] * config.scaleLinear,
                                        joy.axes[config.axisAngular] * config.scaleAngular)];
    }

    /** The five detector blocks of an accepted report, in priority order; reports
        whether any of them published. */
    method RunDetectors(joy: Joy, ghost s: ArbState) returns (commandSent: bool)
      requires config.IndicesNonNegative() && Accepted(config, joy) && State() == s
      modifies this
      ensures commandSent == AnyRising(config, s, joy)
      ensures published == old(published) + Fired(config, s, joy, Turn90) + Fired(config, s, joy, Turn180) +
        Fired(config, s, joy, HighJumpButton) + Fired(config, s, joy, PostureButton) + Fired(config, s, joy, AnimButton)
      ensures State() == After(config, s, joy)
    {
      var turned := RunTurnDetectors(joy, s);
      var pressed := RunButtonDetectors(joy, s);
      commandSent := turned || pressed;
      AfterFromLevels(config, s, joy, State());
    }

    /** The two sharp-turn blocks. */
    method RunTurnDetectors(joy: Joy, ghost s: ArbState) returns (commandSent: bool)
      requires config.IndicesNonNegative() && Accepted(config, joy)
      requires axis90Before == s.axis90Before && axis180Before == s.axis180Before
      modifies this`published, this`axis90Before, this`axis180Before
      ensures commandSent == (Rising(config, s, joy, Turn90) || Rising(config, s, joy, Turn180))
      ensures published == old(published) + Fired(config, s, joy, Turn90) + Fired(config, s, joy, Turn180)
      ensures axis90Before == Condition(config, joy, Turn90) && axis180Before == Condition(config, joy, Turn180)
    {
      commandSent := false;
      var sent := Detect90Turn(joy, s);
      commandSent := commandSent || sent;
      sent := Detect180Turn(joy, s);
      commandSent := commandSent || sent;
    }

    /** The three button blocks. */
    method RunButtonDetectors(joy: Joy, ghost s: ArbState) returns (commandSent: bool)
      requires config.IndicesNonNegative() && Accepted(config, joy)
      requires highJumpBefore == s.highJumpBefore && postureBefore == s.postureBefore
      requires animBefore == s.animBefore && posture == s.posture
      modifies this`published, this`highJumpBefore, this`postureBefore, this`animBefore, this`posture
      ensures commandSent ==
        (Rising(config, s, joy, HighJumpButton) || Rising(config, s, joy, PostureButton) || Rising(config, s, joy, AnimButton))
      ensures published == old(published) + Fired(config, s, joy, HighJumpButton) +
        Fired(config, s, joy, PostureButton) + Fired(config, s, joy, AnimButton)
      ensures highJumpBefore == Condition(config, joy, HighJumpButton)
      ensures postureBefore == Condition(config, joy, PostureButton) && animBefore == Condition(config, joy, AnimButton)
      ensures posture == if Rising(config, s, joy, PostureButton) then NextPosture(s.posture) else s.posture
    {
      commandSent := false;
      var sent := DetectHighJump(joy, s);
      commandSent := commandSent || sent;
      sent := DetectPosture(joy, s);
      commandSent := commandSent || sent;
      sent := DetectAnim(joy, s);
      commandSent := commandSent || sent;
    }

    /** Sharp turn at 90 degrees: +pi/2 for a negative reading, -pi/2 otherwise. */
    method Detect90Turn(joy: Joy, ghost s: ArbState) returns (sent: bool)
      requires config.IndicesNonNegative() && Accepted(config, joy)
      requires axis90Before == Before(s, Turn90)
      modifies this`published, this`axis90Before
      ensures sent == Rising(config, s, joy, Turn90)
      ensures published == old(published) + Fired(config, s, joy, Turn90)
      ensures axis90Before == Condition(config, joy, Turn90)
    {
      sent := false;
      var axis90Now := Abs(joy.axes[config.axis90Turn]) > Threshold;
      if axis90Now && !axis90Before {
        published := published + [SharpTurn(if joy.axes[config.axis90Turn] < 0.0 then HalfPi else -HalfPi)];
        sent := true;
      }
      axis90Before := axis90Now;
    }

    /** Sharp turn at 180 degrees: +2pi for a positive reading, -pi otherwise. */
    method Detect180Turn(joy: Joy, ghost s: ArbState) returns (sent: bool)
      requires config.IndicesNonNegative() && Accepted(config, joy)
      requires axis180Before == Before(s, Turn180)
      modifies this`published, this`axis180Before
      ensures sent == Rising(config, s, joy, Turn180)
      ensures published == old(published) + Fired(config, s, joy, Turn180)
      ensures axis180Before == Condition(config, joy, Turn180)
    {
      sent := false;
      var axis180Now := Abs(joy.axes[config.axis180Turn]) > Threshold;
      if axis180Now && !axis180Before {
        published := published + [SharpTurn(if joy.axes[config.axis180Turn] > 0.0 then TwoPi else -Pi)];
        sent := true;
      }
      axis180Before := axis180Now;
    }

    /** The high-jump button. */
    method DetectHighJump(joy: Joy, ghost s: ArbState) returns (sent: bool)
      requires config.IndicesNonNegative() && Accepted(config, joy)
      requires highJumpBefore == Before(s, HighJumpButton)
      modifies this`published, this`highJumpBefore
      ensures sent == Rising(config, s, joy, HighJumpButton)
      ensures published == old(published) + Fired(config, s, joy, HighJumpButton)
      ensures highJumpBefore == Condition(config, joy, HighJumpButton)
    {
      sent := false;
      if joy.buttons[config.buttonHighJump] != 0 && !highJumpBefore {
        published := published + [HighJump];
        sent := true;
      }
      highJumpBefore := joy.buttons[config.buttonHighJump] != 0;
    }

    /** The posture button: advance the posture and publish the new one. */
    method DetectPosture(joy: Joy, ghost s: ArbState) returns (sent: bool)
      requires config.IndicesNonNegative() && Accepted(config, joy)
      requires postureBefore == Before(s, PostureButton)
      requires posture == s.posture
      modifies this`published, this`posture, this`postureBefore
      ensures sent == Rising(config, s, joy, PostureButton)
      ensures published == old(published) + Fired(config, s, joy, PostureButton)
      ensures postureBefore == Condition(config, joy, PostureButton)
      ensures posture == if sent then NextPosture(old(posture)) else old(posture)
    {
      sent := false;
      if joy.buttons[config.buttonPosture] != 0 && !postureBefore {
        if posture == "standing" {
          posture := "jumper";
        } else if posture == "jumper" {
          posture := "kicker";
        } else {
          posture := "standing";
        }
        published := published + [SetPosture(posture)];
        sent := true;
      }
      postureBefore := joy.buttons[config.buttonPosture] != 0;
    }

    /** The animation button: always the "tap" animation. */
    method DetectAnim(joy: Joy, ghost s: ArbState) returns (sent: bool)
      requires config.IndicesNonNegative() && Accepted(config, joy)
      requires animBefore == Before(s, AnimButton)
      modifies this`published, this`animBefore
      ensures sent == Rising(config, s, joy, AnimButton)
      ensures published == old(published) + Fired(config, s, joy, AnimButton)
      ensures animBefore == Condition(config, joy, AnimButton)
    {
      sent := false;
      if joy.buttons[config.buttonAnim] != 0 && !animBefore {
        published := published + [Anim("tap")];
        sent := true;
      }
      animBefore := joy.buttons[config.buttonAnim] != 0;
    }
  }

  /** A state whose flags are the current levels and whose posture advanced on the
      posture edge is the state `After` describes. */
  lemma AfterFromLevels(cfg: Config, s: ArbState, joy: Joy, t: ArbState)
    requires cfg.IndicesNonNegative() && Accepted(cfg, joy)
    requires t.axis90Before == Condition(cfg, joy, Turn90) && t.axis180Before == Condition(cfg, joy, Turn180)
    requires t.highJumpBefore == Condition(cfg, joy, HighJumpButton)
    requires t.postureBefore == Condition(cfg, joy, PostureButton) && t.animBefore == Condition(cfg, joy, AnimButton)
    requires t.posture == if Rising(cfg, s, joy, PostureButton) then NextPosture(s.posture) else s.posture
    ensures t == After(cfg, s, joy)
  {
  }

  /** Appending five pieces one after the other appends their concatenation, which is
      empty exactly when every piece is. */
  lemma AppendChain<T>(p0: seq<T>, p5: seq<T>, f1: seq<T>, f2: seq<T>, f3: seq<T>, f4: seq<T>, f5: seq<T>)
    requires p5 == p0 + f1 + f2 + f3 + f4 + f5
    ensures p5 == p0 + (f1 + (f2 + (f3 + (f4 + f5))))
    ensures f1 + (f2 + (f3 + (f4 + f5))) == [] <==> f1 == [] && f2 == [] && f3 == [] && f4 == [] && f5 == []
  {
    assert p0 + f1 + f2 + f3 + f4 + f5 == p0 + (f1 + (f2 + (f3 + (f4 + f5))));
  }

  /** The five detector blocks run one after the other publish what `Emitted` says,
      once the velocity fallback is added when none of them fired. */
  lemma DetectorsCompose(cfg: Config, s: ArbState, joy: Joy, p0: seq<Command>, p5: seq<Command>, sent: bool)
    requires cfg.IndicesNonNegative() && Accepted(cfg, joy)
    requires p5 == p0 + Fired(cfg, s, joy, Turn90) + Fired(cfg, s, joy, Turn180) +
      Fired(cfg, s, joy, HighJumpButton) + Fired(cfg, s, joy, PostureButton) + Fired(cfg, s, joy, AnimButton)
    requires sent == AnyRising(cfg, s, joy)
    ensures sent ==> p5 == p0 + Emitted(cfg, s, joy)
    ensures !sent ==> p5 == p0 && Emitted(cfg, s, joy) == [Velocity(cfg, joy)]
  {
    DiscreteUnrolled(cfg, s, joy);
    AppendChain(p0, p5, Fired(cfg, s, joy, Turn90), Fired(cfg, s, joy, Turn180),
      Fired(cfg, s, joy, HighJumpButton), Fired(cfg, s, joy, PostureButton), Fired(cfg, s, joy, AnimButton));
  }

  /** The priority-ordered detector list, written out detector by detector. */
  lemma DiscreteUnrolled(cfg: Config, s: ArbState, joy: Joy)
    requires cfg.IndicesNonNegative() && Accepted(cfg, joy)
    ensures DiscreteCommands(cfg, s, joy, Detectors) ==
      Fired(cfg, s, joy, Turn90) + (Fired(cfg, s, joy, Turn180) + (Fired(cfg, s, joy, HighJumpButton) +
      (Fired(cfg, s, joy, PostureButton) + Fired(cfg, s, joy, AnimButton))))
  {
    var d5: seq<Detector> := [AnimButton];
    var d4 := [PostureButton] + d5;
    var d3 := [HighJumpButton] + d4;
    var d2 := [Turn180] + d3;
    assert Detectors == [Turn90] + d2;
    assert d5[1..] == [] && d4[1..] == d5 && d3[1..] == d4 && d2[1..] == d3 && Detectors[1..] == d2;
    var r5 := DiscreteCommands(cfg, s, joy, d5);
    assert r5 == Fired(cfg, s, joy, AnimButton);
    var r4 := DiscreteCommands(cfg, s, joy, d4);
    assert r4 == Fired(cfg, s, joy, PostureButton) + r5;
    var r3 := DiscreteCommands(cfg, s, joy, d3);
    assert r3 == Fired(cfg, s, joy, HighJumpButton) + r4;
    var r2 := DiscreteCommands(cfg, s, joy, d2);
    assert r2 == Fired(cfg, s, joy, Turn180) + r3;
    assert DiscreteCommands(cfg, s, joy, Detectors) == Fired(cfg, s, joy, Turn90) + r2;
  }

  /** A client: holding the 90-degree axis left for two reports turns once. */
  method HeldTurnScenario() {
    var node := new Arbitrator(DefaultConfig);
    var left := Joy([0.0, 0.0, 0.0, -1.0, 0.0], [0, 0, 0, 0]);
    node.JoyCallback(left);
    DiscreteUnrolled(DefaultConfig, InitialState, left);
    assert node.published == [SharpTurn(HalfPi)];
    var s1 := node.State();
    node.JoyCallback(left);
    DiscreteUnrolled(DefaultConfig, s1, left);
    assert node.published == [SharpTurn(HalfPi), CmdVel(0.0, 0.0)];
  }
}
