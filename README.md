# Sumo joystick teleoperation: command arbitration

This project models the joystick node of the Jumping Sumo ROS driver
(`src/sumo_teleop_joy.cpp`). The node turns joystick reports into robot commands.
Each report runs through five rising-edge detectors in a fixed order:

1. the 90-degree turn axis;
2. the 180-degree turn axis;
3. the high-jump button;
4. the posture button, which cycles standing → jumper → kicker;
5. the animation button.

Each detector that fires publishes one discrete command. When none fires, the node
publishes a velocity command built from two scaled axes. A report too short to hold
every configured axis or button index is dropped without publishing anything.

`sumo_teleop_joy.dfy` holds one module, `TeleopJoy`, in two halves:

- **Specification on values.** This half covers:
  - `Config`: the node parameters, with `MaxAxis` and `MaxButton`.
  - `ArbState`: the five "before" flags and the posture.
  - `Condition`, `Rising` and `DetectorCommand`: the level each detector sees, whether it fires, and the command it publishes.
  - `Emitted` and `After`: what one report publishes, and the state it leaves behind.
  - `RunState`, `RunOutput` and `FireCount`: what a sequence of reports does.
- **The node.** This half is the class `Arbitrator`:
  - Its fields are the process-wide globals of the C++ node.
  - `published` is everything sent on the node's topics.
  - `JoyCallback` updates the fields step by step, as the callback does.
  - Its contract ties the new output and the new state to `Emitted` and `After`.
  - The properties are proved as lemmas about those two functions.

Turn angles are kept symbolic, as rational multiples of pi. For example,
`SharpTurn(0.5)` is a turn of pi/2 radians. Buttons are integers, and a button is
pressed when its value is nonzero, as in the C++ conversion from int to bool.

## Model

| member | source | states |
|---|---|---|
| TeleopJoy.Config.MaxAxis | src/sumo_teleop_joy.cpp:124 | the result is at least every configured axis index and equals one of them |
| TeleopJoy.Config.MaxButton | src/sumo_teleop_joy.cpp:125 | the result is at least every configured button index and equals one of them |
| TeleopJoy.NextPosture | src/sumo_teleop_joy.cpp:83-85 | the next posture is always one of standing/jumper/kicker and differs from the current one; an unknown posture restarts at "standing" |
| TeleopJoy.PostureCycle | src/sumo_teleop_joy.cpp:83-85 | the cycle runs standing → jumper → kicker → standing, so advancing a known posture three times returns to it |
| TeleopJoy.DetectorCommand | src/sumo_teleop_joy.cpp:55-98 | the command of each detector is attributed to that detector alone: turn angles ±pi/2 belong to the 90-degree axis and 2pi/−pi to the 180-degree axis |
| TeleopJoy.Accepted | src/sumo_teleop_joy.cpp:45-51 | definition, no contract: a report is processed only when its axis count exceeds the largest axis index and its button count the largest button index |
| TeleopJoy.Condition | src/sumo_teleop_joy.cpp:55-93 | definition, no contract: the current level of each detector (axis magnitude above 0.9, button nonzero) |
| TeleopJoy.Rising | src/sumo_teleop_joy.cpp:56-93 | definition, no contract: a detector fires when its level is active now and was not before |
| TeleopJoy.Velocity | src/sumo_teleop_joy.cpp:103-105 | the fallback is a velocity command, and it is never attributed to any detector |
| TeleopJoy.DiscreteCommands | src/sumo_teleop_joy.cpp:53-98 | a list of detectors publishes no more commands than the list has entries |
| TeleopJoy.DiscreteCount | src/sumo_teleop_joy.cpp:53-98 | a firing detector contributes one command per occurrence in the list, a silent one none; so in the callback's list, where each detector occurs once, each contributes at most one |
| TeleopJoy.DiscreteCommandsMembers | src/sumo_teleop_joy.cpp:53-98 | every published discrete command comes from a detector of the list that fired, and a detector of the list publishes its command exactly when it fires |
| TeleopJoy.DiscreteUnrolled | src/sumo_teleop_joy.cpp:54-98 | the discrete commands come out in the callback's order: 90-degree turn, 180-degree turn, jump, posture, animation |
| TeleopJoy.Emitted | src/sumo_teleop_joy.cpp:43-107 | a report that is too short publishes nothing; an accepted one publishes between one and five commands |
| TeleopJoy.EmittedCount | src/sumo_teleop_joy.cpp:43-106 | one report publishes exactly one command of a detector when that detector fires on an accepted report, and none otherwise |
| TeleopJoy.EmittedCommands | src/sumo_teleop_joy.cpp:53-106 | on an accepted report, a detector's command is published exactly when it fires; every published command is a firing detector's command, or the velocity command when none fires; the output is the velocity command alone exactly when no detector fires |
| TeleopJoy.After | src/sumo_teleop_joy.cpp:44-52 | a report that is too short leaves the state unchanged |
| TeleopJoy.AfterRecordsLevels | src/sumo_teleop_joy.cpp:62-98 | after an accepted report each "before" flag equals its detector's current level; the posture advances exactly on a posture edge, and the advanced posture is what gets published |
| TeleopJoy.AcceptedIndicesInBounds | src/sumo_teleop_joy.cpp:44-52 | once a report passes both length checks, every configured axis and button index lies inside it |
| TeleopJoy.Turn90Edge | src/sumo_teleop_joy.cpp:55-62 | a turn of +pi/2 is published exactly when the 90-degree axis reads below −0.9 and was idle before; −pi/2 exactly when it reads above 0.9 and was idle |
| TeleopJoy.Turn180Edge | src/sumo_teleop_joy.cpp:64-71 | a turn of +2pi is published exactly when the 180-degree axis reads above 0.9 and was idle before; −pi exactly when it reads below −0.9 and was idle |
| TeleopJoy.JumpAndAnimEdges | src/sumo_teleop_joy.cpp:74-98 | the payload-free jump is published exactly on a jump-button press edge; the "tap" animation exactly on an animation-button press edge; no other animation name is ever published |
| TeleopJoy.PostureEdge | src/sumo_teleop_joy.cpp:82-90 | a posture is published exactly on a posture-button press edge, and the published posture is the successor of the current one |
| TeleopJoy.VelocityFallback | src/sumo_teleop_joy.cpp:100-106 | a velocity command is published exactly when no detector fired; its linear part is the linear axis times the linear scale and its angular part the angular axis times the angular scale; it is then the only command |
| TeleopJoy.HeldFiresOnce | src/sumo_teleop_joy.cpp:56-98 | holding an input over a run of accepted reports fires its detector once if it was idle before the run, never if it was already active; the flag is set afterwards |
| TeleopJoy.RunCount | src/sumo_teleop_joy.cpp:43-107 | over any run of reports, the number of commands published for a detector equals the number of reports on which it fired |
| TeleopJoy.HeldPublishesOnce | src/sumo_teleop_joy.cpp:56-98 | holding an input over a run of accepted reports publishes exactly one command for it, on the first report, when it was idle before the run; none when it was already active |
| TeleopJoy.RejectedRunIsSilent | src/sumo_teleop_joy.cpp:44-52 | a run of reports that are all too short publishes nothing and changes no state |
| TeleopJoy.PostureFollowsEdges | src/sumo_teleop_joy.cpp:82-90 | over any run, the final posture is the initial one advanced once per posture edge |
| TeleopJoy.ThreePostureEdgesReturn | src/sumo_teleop_joy.cpp:82-90 | from the start-up state ("jumper"), a run with exactly three posture edges ends in "jumper" again |
| TeleopJoy.DetectorsCompose | src/sumo_teleop_joy.cpp:53-102 | running the five detector blocks one after the other publishes the discrete output of `Emitted`; when none fired, nothing has been published yet and `Emitted` is the velocity command alone |
| TeleopJoy.Arbitrator.constructor | src/sumo_teleop_joy.cpp:32-37 | the node starts with every flag cleared, posture "jumper", and nothing published |
| TeleopJoy.Arbitrator.JoyCallback | src/sumo_teleop_joy.cpp:43-107 | one callback appends exactly `Emitted` to the published commands and leaves exactly the `After` state |
| TeleopJoy.Arbitrator.RunDetectors | src/sumo_teleop_joy.cpp:53-98 | the five blocks together report whether any detector fired, publish the fired commands in order, and leave the `After` state |
| TeleopJoy.Arbitrator.RunTurnDetectors | src/sumo_teleop_joy.cpp:54-71 | the two turn blocks publish their fired commands in order and record both axis levels |
| TeleopJoy.Arbitrator.RunButtonDetectors | src/sumo_teleop_joy.cpp:73-98 | the three button blocks publish their fired commands in order; they record the button levels and advance the posture on its edge |
| TeleopJoy.Arbitrator.Detect90Turn | src/sumo_teleop_joy.cpp:54-62 | the block fires exactly on the axis's rising edge, appends that detector's command, and records the current level |
| TeleopJoy.Arbitrator.Detect180Turn | src/sumo_teleop_joy.cpp:63-71 | the block fires exactly on the axis's rising edge, appends that detector's command, and records the current level |
| TeleopJoy.Arbitrator.DetectHighJump | src/sumo_teleop_joy.cpp:73-79 | the block fires exactly on the button's rising edge, appends the jump, and records the current level |
| TeleopJoy.Arbitrator.DetectPosture | src/sumo_teleop_joy.cpp:81-90 | the block fires exactly on the button's rising edge; it then advances the posture and publishes the new one; it always records the current level |
| TeleopJoy.Arbitrator.DetectAnim | src/sumo_teleop_joy.cpp:92-98 | the block fires exactly on the button's rising edge, appends "tap", and records the current level |

`HeldTurnScenario` is a client of the class. It holds the 90-degree axis left for two reports and
checks that the node publishes one +pi/2 turn and then a velocity command.

## Left out

- `src/rossumo.cpp` (the robot bridge) is not part of this model.
- ROS plumbing is not modelled: `main`'s parameter reading, the subscribers and publishers, and `ros::spin`. The configuration is an input to the constructor. Publishing is appending to `published`, with one `Command` constructor per topic.
- Logging is not modelled: the `ROS_WARN` on a short report and the `ROS_INFO` on a jump. The button warning on line 50 prints the axis count instead of the button count. That affects only the log text.
- The scratch global `string_msg` is not modelled. It only carries the outgoing string.
- Floating point is left out. Axes and scales are exact reals, and the angles are symbolic multiples of pi (`M_PI_2`, `M_PI`, `2 * M_PI`). Rounding in the velocity products and NaN readings are not captured.
- Arbitrator.JoyCallback: requires every configured index to be non-negative. The C++ node never checks this, and a negative parameter would index out of range in C++.
- Arbitrator.RunDetectors, Arbitrator.RunTurnDetectors and Arbitrator.RunButtonDetectors: the C++ callback is one function body. The model splits its five detector blocks into one method per block, grouped by these helpers, so each proof stays small. Order and effects are unchanged.
- Short-report rule: the code drops a report when its axis count is at most the largest axis index, and likewise for buttons. In other words, a report is accepted only when every index is inside it. The model states this rule as `Accepted`.
