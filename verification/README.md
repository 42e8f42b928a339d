# Swerve drive core of Team 100's 2024 robot code, in Dafny

This project models the logic that sits between a chassis-speed request
and the per-module swerve commands of the Team 100 robot library. It also
models the small decision rules around that path, in mechanisms, commands,
telemetry and a simulator study. Each source file becomes one module:

- `SteeringOverride`: holds stopped modules back when their steering
  cannot reach the requested angle in one tick.
- `SecondOrderKinematics`, `ChassisAccelerations`, `SwerveModuleRate`:
  the 2n x 4 inverse matrix, the module-rate projection and its
  round trip, finite-difference and field-to-robot accelerations, and
  tolerance equality with its ordering.
- `FirstOrderKinematics`: wheel-speed desaturation, the 2n x 3 inverse
  matrix, heading retention at zero speed and the empty angle of a
  motionless module, as the kinematics unit tests pin them down. The
  class under test is not part of this model.
- `SwerveLocal`: the `prevSetpoint` bookkeeping of the local swerve
  drive.
- `Rotate` and `TrajectoryListCommand`: per-tick command state machines
  with a steering-alignment latch.
- `SimulatedMotor`, `TurningEncoder`, `DrumShooter`, `AmpPivot`,
  `ClimberPosition`: actuator, sensor and mechanism rules.
- `AutoMaker`: field mirroring for the red alliance, and the field-point
  table.
- `Telemetry`: logging levels.
- `UdpLogger`: key allocation, the newest-value-wins queues and packet
  splitting of the UDP logger.
- `Friend`: the pick/score goal toggle of the simulated partner robot.

Shared modules:

- `Wrappers`: `Option` and `Result`.
- `Geometry`: translations, rotations that carry their own cosine and
  sine, `Clamp` and `IsNear`.
- `Matrix`: real matrices and matrix-vector products.

Collaborators are function-typed parameters. These include the
pseudo-inverse, angle wrapping, the flip rule, square root, atan2, the
motion profile, the drive controller, the setpoint generator and the
trajectory iterator. Java exceptions become `Result` failures. Clocks
and measurements are arguments.

## Model

| member | source | states |
|---|---|---|
| SteeringOverride.RotationRad | lib/src/main/java/org/team100/lib/swerve/SteeringOverride.java:97-106 | empty exactly when either angle is unknown; otherwise the wrapped difference, turned by pi only when the flip rule says so |
| SteeringOverride.ModuleDecision | lib/src/main/java/org/team100/lib/swerve/SteeringOverride.java:44-87 | a moving module is left untouched; a module at rest that stays at rest keeps its previous angle (or none); a reachable rotation writes the desired angle; only an unreachable rotation stalls, and then the written angle is exactly one step from the previous one in the rotation's direction |
| SteeringOverride.OverrideIfStopped | lib/src/main/java/org/team100/lib/swerve/SteeringOverride.java:37-93 | the scalar is 0 or 1, and it is 0 exactly when some module stalls; each override entry is its module's decision applied to the old entry, and entries beyond the module count are unchanged |
| SteeringOverride.QuarterTurnFromRest | lib/src/main/java/org/team100/lib/swerve/SteeringOverride.java:63-87 | a module at rest at angle 0, asked for a quarter turn with a 0.2 rad step, stalls and is written 0.2 rad |
| SecondOrderKinematics.New | lib/src/main/java/org/team100/lib/motion/drivetrain/kinematics/SwerveDriveSecondOrderKinematics.java:27-42 | fails exactly when fewer than two modules are given; otherwise rows 2i and 2i+1 are [1, 0, -x, -y] and [0, 1, -y, x], and the forward matrix is the pseudo-inverse |
| SecondOrderKinematics.InverseGivesPointAcceleration | lib/src/main/java/org/team100/lib/motion/drivetrain/kinematics/SwerveDriveSecondOrderKinematics.java:35-40 | the inverse matrix maps the chassis acceleration to each module's rigid-body acceleration a - c r + alpha r-perpendicular |
| SecondOrderKinematics.ProjectRateMeaning | lib/src/main/java/org/team100/lib/motion/drivetrain/kinematics/SwerveDriveSecondOrderKinematics.java:73-84 | the module acceleration is the component along the heading, and the angular velocity times speed is the component across it |
| SecondOrderKinematics.ToSwerveModuleRates | lib/src/main/java/org/team100/lib/motion/drivetrain/kinematics/SwerveDriveSecondOrderKinematics.java:44-87 | one rate per module; all zero for the all-zero acceleration whatever the states; otherwise each rate projects that module's point acceleration onto its heading |
| SecondOrderKinematics.ZeroShortCircuitConsistent | lib/src/main/java/org/team100/lib/motion/drivetrain/kinematics/SwerveDriveSecondOrderKinematics.java:47-58 | the zero short-circuit gives the same rates that the general projection would |
| SecondOrderKinematics.FlattenPairs | lib/src/main/java/org/team100/lib/motion/drivetrain/kinematics/SwerveDriveSecondOrderKinematics.java:60-74 | splitting the product vector into (x, y) pairs and packing them again gives the vector back |
| SecondOrderKinematics.ToChassisAccelerations | lib/src/main/java/org/team100/lib/motion/drivetrain/kinematics/SwerveDriveSecondOrderKinematics.java:89-110 | fails exactly when the rate count differs from the module count; otherwise the forward matrix is applied to each module's acceleration along its heading |
| SecondOrderKinematics.AlongHeadingOfProjection | lib/src/main/java/org/team100/lib/motion/drivetrain/kinematics/SwerveDriveSecondOrderKinematics.java:97-109 | repacking a projected rate gives the point acceleration minus its sideways part, and its magnitude is the module acceleration |
| SecondOrderKinematics.AlongHeadingWhenNoSideways | lib/src/main/java/org/team100/lib/motion/drivetrain/kinematics/SwerveDriveSecondOrderKinematics.java:79-109 | a point acceleration with no sideways part survives projection and repacking unchanged |
| SecondOrderKinematics.RoundTrip | lib/src/main/java/org/team100/lib/motion/drivetrain/kinematics/SwerveDriveSecondOrderKinematics.java:44-110 | chassis acceleration to module rates and back returns the chassis acceleration, when the matrices are mutual inverses and every module is aligned with its acceleration |
| ChassisAccelerations.Zero | lib/src/main/java/org/team100/lib/motion/drivetrain/kinematics/ChassisAccelerations.java:21-22 | the default acceleration has every component zero |
| ChassisAccelerations.FromSpeeds | lib/src/main/java/org/team100/lib/motion/drivetrain/kinematics/ChassisAccelerations.java:24-32 | integrating each acceleration over one 0.02 s period turns the current speeds into the next; centripetal is the current omega squared and never negative |
| ChassisAccelerations.SteadySpeedHasNoAcceleration | lib/src/main/java/org/team100/lib/motion/drivetrain/kinematics/ChassisAccelerations.java:24-32 | equal speeds give zero linear and angular acceleration, leaving only the centripetal term |
| ChassisAccelerations.FromFieldRelative | lib/src/main/java/org/team100/lib/motion/drivetrain/kinematics/ChassisAccelerations.java:45-56 | centripetal and alpha pass through; on the unit circle the result rotated back by the robot angle is the field acceleration, and its norm is preserved |
| ChassisAccelerations.FromFieldRelativeAccel | lib/src/main/java/org/team100/lib/motion/drivetrain/kinematics/ChassisAccelerations.java:58-66 | the object overload agrees with the scalar overload on the object's fields |
| ChassisAccelerations.ZeroAngleIsIdentity | lib/src/main/java/org/team100/lib/motion/drivetrain/kinematics/ChassisAccelerations.java:45-66 | at robot angle zero the field-relative conversion changes nothing |
| SwerveModuleRate.Default | lib/src/main/java/org/team100/lib/motion/drivetrain/kinematics/SwerveModuleRate.java:20-21 | the no-argument rate has zero acceleration and zero angular velocity |
| SwerveModuleRate.EqualsCharacterized | lib/src/main/java/org/team100/lib/motion/drivetrain/kinematics/SwerveModuleRate.java:28-36 | equal exactly when the other object is a rate whose acceleration is within 1e-9 and whose angular velocity is identical; never equal to another kind of object |
| SwerveModuleRate.EqualsReflexiveSymmetric | lib/src/main/java/org/team100/lib/motion/drivetrain/kinematics/SwerveModuleRate.java:32-33 | equality is reflexive and symmetric |
| SwerveModuleRate.EqualsNotTransitive | lib/src/main/java/org/team100/lib/motion/drivetrain/kinematics/SwerveModuleRate.java:32-33 | three rates 6e-10 apart show that tolerance equality is not transitive |
| SwerveModuleRate.CompareTo | lib/src/main/java/org/team100/lib/motion/drivetrain/kinematics/SwerveModuleRate.java:43-46 | the result is -1, 0 or 1, and its sign is the sign of the acceleration difference |
| SwerveModuleRate.CompareToOrdersByAccelerationOnly | lib/src/main/java/org/team100/lib/motion/drivetrain/kinematics/SwerveModuleRate.java:43-46 | angular velocity never affects the order, which is antisymmetric and transitive |
| SwerveModuleRate.CompareToInconsistentWithEquals | lib/src/main/java/org/team100/lib/motion/drivetrain/kinematics/SwerveModuleRate.java:28-46 | two rates can compare as 0 yet not be equal |
| FirstOrderKinematics.MaxAbsIsMaximum | lib/src/test/java/org/team100/lib/motion/drivetrain/kinodynamics/SwerveDriveKinematics100Test.java:874-891 | the largest magnitude bounds every speed and is attained by one of them; it is 0 for no speeds |
| FirstOrderKinematics.FindMaxAbs | lib/src/test/java/org/team100/lib/motion/drivetrain/kinodynamics/SwerveDriveKinematics100Test.java:874-891 | the loop finds a bound on every magnitude that one speed attains |
| FirstOrderKinematics.DesaturateByFactor | lib/src/test/java/org/team100/lib/motion/drivetrain/kinodynamics/SwerveDriveKinematics100Test.java:874-891 | every speed is multiplied by one common factor between 0 and 1 |
| FirstOrderKinematics.DesaturateEntry | lib/src/test/java/org/team100/lib/motion/drivetrain/kinodynamics/SwerveDriveKinematics100Test.java:874-891 | above the cap, each speed is scaled by the cap over the largest magnitude |
| FirstOrderKinematics.DesaturateWithinCap | lib/src/test/java/org/team100/lib/motion/drivetrain/kinodynamics/SwerveDriveKinematics100Test.java:874-908 | speeds already within the cap are unchanged |
| FirstOrderKinematics.DesaturateMeaning | lib/src/test/java/org/team100/lib/motion/drivetrain/kinodynamics/SwerveDriveKinematics100Test.java:874-908 | every desaturated speed lies within the cap, keeps its sign and is zero exactly when it was zero; speeds within the cap are unchanged, and all speeds share one factor in [0, 1] |
| FirstOrderKinematics.Desaturate | lib/src/test/java/org/team100/lib/motion/drivetrain/kinodynamics/SwerveDriveKinematics100Test.java:874-908 | as many states as given, each keeping its angle |
| FirstOrderKinematics.DesaturateScalesToCap | lib/src/test/java/org/team100/lib/motion/drivetrain/kinodynamics/SwerveDriveKinematics100Test.java:874-891 | speeds 5, 6, 4, 7 with cap 5.5 are scaled by 5.5/7 |
| FirstOrderKinematics.DesaturateKeepsSigns | lib/src/test/java/org/team100/lib/motion/drivetrain/kinodynamics/SwerveDriveKinematics100Test.java:893-908 | speeds 1, 1, -2, -2 with cap 1 become 0.5, 0.5, -1, -1 |
| FirstOrderKinematics.InverseGivesPointVelocity | lib/src/test/java/org/team100/lib/motion/drivetrain/kinodynamics/SwerveDriveKinematics100Test.java:249-267 | the inverse matrix maps chassis speeds to each module's rigid-body velocity |
| FirstOrderKinematics.SquareBaseInverse | lib/src/test/java/org/team100/lib/motion/drivetrain/kinodynamics/SwerveDriveKinematics100Test.java:249-267 | the inverse matrix of the test's square base has rows [1, 0, -y] and [0, 1, x] |
| FirstOrderKinematics.ToSwerveModuleStates | lib/src/test/java/org/team100/lib/motion/drivetrain/kinodynamics/SwerveDriveKinematics100Test.java:371-487 | still chassis speeds keep every module's last heading at speed 0; otherwise each module gets the norm and direction of its velocity, which become the new headings |
| FirstOrderKinematics.InverseMatrix | lib/src/test/java/org/team100/lib/motion/drivetrain/kinodynamics/SwerveDriveKinematics100Test.java:249-267 | two rows per module and three columns |
| FirstOrderKinematics.ResetHeadings | lib/src/test/java/org/team100/lib/motion/drivetrain/kinodynamics/SwerveDriveKinematics100Test.java:468-487 | the modules are kept and the result is a valid kinematics |
| FirstOrderKinematics.StraightLine | lib/src/test/java/org/team100/lib/motion/drivetrain/kinodynamics/SwerveDriveKinematics100Test.java:371-385 | pure translation (5, 0, 0) gives every module speed 5 at angle 0 |
| FirstOrderKinematics.ZeroSpeedKeepsLastAngles | lib/src/test/java/org/team100/lib/motion/drivetrain/kinodynamics/SwerveDriveKinematics100Test.java:449-465 | after a moving request, a zero request keeps each module at the angle just commanded |
| FirstOrderKinematics.ZeroSpeedAfterReset | lib/src/test/java/org/team100/lib/motion/drivetrain/kinodynamics/SwerveDriveKinematics100Test.java:468-487 | after a heading reset, a zero request holds the reset headings |
| FirstOrderKinematics.StateFromVelocity | lib/src/test/java/org/team100/lib/motion/drivetrain/kinodynamics/SwerveDriveKinematics100Test.java:228-237 | the angle is empty exactly when the velocity is below the threshold, and then the speed is 0 |
| FirstOrderKinematics.StatesFromVector | lib/src/test/java/org/team100/lib/motion/drivetrain/kinodynamics/SwerveDriveKinematics100Test.java:676-752 | one state per module, each the state of the rigid-body velocity of that module's position |
| FirstOrderKinematics.AccelerationFromVector | lib/src/test/java/org/team100/lib/motion/drivetrain/kinodynamics/SwerveDriveKinematics100Test.java:676-790 | one second-order state per module; a module with no angle has speed 0 and steering rate 0 |
| FirstOrderKinematics.SecondOrderAgreesWithFirstOrder | lib/src/test/java/org/team100/lib/motion/drivetrain/kinodynamics/SwerveDriveKinematics100Test.java:676-752 | the second-order states, read off the product of the inverse matrix with the chassis velocity, agree on speed and angle with the first-order states built from the rigid-body velocity of each module |
| FirstOrderKinematics.MotionlessHasEmptyAngles | lib/src/test/java/org/team100/lib/motion/drivetrain/kinodynamics/SwerveDriveKinematics100Test.java:755-790 | at zero chassis speed every second-order module has an empty angle, zero speed and zero steering rate |
| SwerveLocal.SetModuleStates | lib/src/main/java/org/team100/lib/motion/drivetrain/SwerveLocal.java:254-260 | the modules receive exactly the desaturated states |
| SwerveLocal.SetChassisSpeedsNormally | lib/src/main/java/org/team100/lib/motion/drivetrain/SwerveLocal.java:209-222 | fails exactly when kinematics leaves a module state empty; otherwise the desaturated states are sent, and the requested speeds are remembered with what was sent |
| SwerveLocal.SetChassisSpeedsWithGenerator | lib/src/main/java/org/team100/lib/motion/drivetrain/SwerveLocal.java:236-251 | the generated setpoint's states are desaturated and sent, and the generated speeds are remembered with what was sent |
| SwerveLocal.SetChassisSpeeds | lib/src/main/java/org/team100/lib/motion/drivetrain/SwerveLocal.java:83-90 | dispatches on the generator switch, and the remembered setpoint always matches what was sent |
| SwerveLocal.SetChassisSpeedsSimple | lib/src/main/java/org/team100/lib/motion/drivetrain/SwerveLocal.java:92-94 | the one-argument form is the normal path with yaw rate 0 and dt 0.02 |
| SwerveLocal.FillAtRest | lib/src/main/java/org/team100/lib/motion/drivetrain/SwerveLocal.java:104-110 | every speed becomes 0; an empty entry takes the previous setpoint's angle, and failure happens exactly when no previous state exists for it |
| SwerveLocal.DesaturatingRestIsIdentity | lib/src/main/java/org/team100/lib/motion/drivetrain/SwerveLocal.java:110-112 | desaturating zero speeds changes nothing |
| SwerveLocal.SteerAtRest | lib/src/main/java/org/team100/lib/motion/drivetrain/SwerveLocal.java:99-119 | sends the filled zero-speed states, remembers them with zero chassis speed, resets headings, and reports aligned exactly when every module is at goal |
| SwerveLocal.SetRawModuleStates | lib/src/main/java/org/team100/lib/motion/drivetrain/SwerveLocal.java:153-160 | sends the states without desaturation and resets headings; the remembered setpoint is untouched |
| SwerveLocal.Defense | lib/src/main/java/org/team100/lib/motion/drivetrain/SwerveLocal.java:124-127 | sends zero speed at pi/4, -pi/4, 3pi/4 and -3pi/4, raw, and leaves the setpoint alone |
| SwerveLocal.Steer0 | lib/src/main/java/org/team100/lib/motion/drivetrain/SwerveLocal.java:132-134 | sends every module to angle 0, raw |
| SwerveLocal.Steer90 | lib/src/main/java/org/team100/lib/motion/drivetrain/SwerveLocal.java:139-141 | sends every module to angle pi/2, raw |
| SwerveLocal.Stop | lib/src/main/java/org/team100/lib/motion/drivetrain/SwerveLocal.java:143-145 | stops the modules and changes no state |
| SwerveLocal.ResetSetpoint | lib/src/main/java/org/team100/lib/motion/drivetrain/SwerveLocal.java:205-207 | replaces the remembered setpoint and sends nothing |
| SwerveLocal.EveryDispatchIsDesaturatedAndRemembered | lib/src/main/java/org/team100/lib/motion/drivetrain/SwerveLocal.java:83-119 | every speed-driven dispatch sends desaturated states and remembers exactly what it sent |
| Rotate.New | lib/src/main/java/org/team100/lib/commands/drivetrain/Rotate.java:55-87 | the goal is the target angle at rest, the reference starts at zero, and the command is neither finished nor aligned |
| Rotate.Anchored | lib/src/main/java/org/team100/lib/commands/drivetrain/Rotate.java:101-106 | the reference sits at the measured heading and turning rate, with no acceleration |
| Rotate.Initialize | lib/src/main/java/org/team100/lib/commands/drivetrain/Rotate.java:90-106 | clears the latch, anchors the reference at the measured heading and rate, and builds the profile from half the angular limits |
| Rotate.Execute | lib/src/main/java/org/team100/lib/commands/drivetrain/Rotate.java:109-148 | finished means the profiled reference is within 0.02 of the goal in angle and rate; x and y hold the current pose at rest; once aligned it drives and keeps the latch, and before that it only steers at rest, re-anchors the reference and latches on the steering answer |
| Rotate.LatchSetsOnFirstAlignment | lib/src/main/java/org/team100/lib/commands/drivetrain/Rotate.java:126-137 | after any run of ticks the latch is set exactly when it was set before or some tick reported alignment |
| Rotate.FinishesOnlyNearGoal | lib/src/main/java/org/team100/lib/commands/drivetrain/Rotate.java:109-153 | after any nonempty run, isFinished holds exactly when the controller is at its reference and the last profiled reference is within 0.02 of the goal in angle and rate |
| Rotate.RunKeepsGoal | lib/src/main/java/org/team100/lib/commands/drivetrain/Rotate.java:109-148 | a run never changes the goal or the profile |
| Rotate.End | lib/src/main/java/org/team100/lib/commands/drivetrain/Rotate.java:156-158 | ending always stops the drive |
| TrajectoryListCommand.Initialize | lib/src/main/java/org/team100/lib/commands/drivetrain/FullStateTrajectoryListCommand.java:53-59 | no current trajectory, not aligned, not done, and the whole list remains |
| TrajectoryListCommand.Follow | lib/src/main/java/org/team100/lib/commands/drivetrain/FullStateTrajectoryListCommand.java:78-109 | aligned: advance and drive, or cancel on an empty sample; not aligned: preview only, steer at rest and latch its answer, or cancel on an empty sample |
| TrajectoryListCommand.Execute | lib/src/main/java/org/team100/lib/commands/drivetrain/FullStateTrajectoryListCommand.java:62-111 | an exhausted list sets done and drives nothing; otherwise the next trajectory starts unaligned; the list only ever loses its head, and done is never cleared |
| TrajectoryListCommand.NewTrajectoryStartsBySteering | lib/src/main/java/org/team100/lib/commands/drivetrain/FullStateTrajectoryListCommand.java:63-109 | the tick that starts a trajectory never drives in field coordinates |
| TrajectoryListCommand.RunOnlyConsumes | lib/src/main/java/org/team100/lib/commands/drivetrain/FullStateTrajectoryListCommand.java:62-116 | over any run the remaining list is a suffix of the original, shrinking by at most one per tick, and done stays done |
| TrajectoryListCommand.FinishesOnlyWhenListIsUsedUp | lib/src/main/java/org/team100/lib/commands/drivetrain/FullStateTrajectoryListCommand.java:62-116 | after any run, a command that was not done at the start finishes only with its list of trajectories used up |
| TrajectoryListCommand.End | lib/src/main/java/org/team100/lib/commands/drivetrain/FullStateTrajectoryListCommand.java:119-122 | ending stops the drive and clears the visualisation |
| SimulatedMotor.New | lib/src/main/java/org/team100/lib/motor/SimulatedMotor.java:23-28 | a new motor is at rest |
| SimulatedMotor.SetVelocity | lib/src/main/java/org/team100/lib/motor/SimulatedMotor.java:39-43 | a velocity inside the free speed is stored as given; one outside is stored as the nearer limit |
| SimulatedMotor.SetVelocityIgnoresAccelAndTorque | lib/src/main/java/org/team100/lib/motor/SimulatedMotor.java:39-43 | the acceleration and torque arguments never matter |
| SimulatedMotor.SetDutyCycle | lib/src/main/java/org/team100/lib/motor/SimulatedMotor.java:31-36 | the duty cycle is clamped to [-1, 1] and scaled by the free speed, which keeps the velocity within free speed |
| SimulatedMotor.SetPosition | lib/src/main/java/org/team100/lib/motor/SimulatedMotor.java:46-48 | a position command changes nothing |
| SimulatedMotor.Stop | lib/src/main/java/org/team100/lib/motor/SimulatedMotor.java:51-53 | stopping zeroes the velocity |
| SimulatedMotor.VelocityAlwaysWithinFreeSpeed | lib/src/main/java/org/team100/lib/motor/SimulatedMotor.java:23-62 | after any sequence of commands the reported velocity is within the free speed |
| TurningEncoder.ConversionsAreInverse | lib/src/main/java/org/team100/lib/encoder/turning/Talon6TurningEncoder.java:28-50 | revolutions to radians and back, and radians to revolutions and back, are identities |
| TurningEncoder.GetPosition | lib/src/main/java/org/team100/lib/encoder/turning/Talon6TurningEncoder.java:28-34 | always present, and equal to motor revolutions times 2 pi over the gear ratio |
| TurningEncoder.GetRate | lib/src/main/java/org/team100/lib/encoder/turning/Talon6TurningEncoder.java:38-44 | always present, and equal to motor revolutions per second times 2 pi over the gear ratio |
| TurningEncoder.SetPosition | lib/src/main/java/org/team100/lib/encoder/turning/Talon6TurningEncoder.java:47-50 | reading the position back returns the angle set |
| TurningEncoder.Reset | lib/src/main/java/org/team100/lib/encoder/turning/Talon6TurningEncoder.java:53-55 | the motor's revolution count becomes 0; the gear ratio and the rate are kept |
| TurningEncoder.ResetReadsZero | lib/src/main/java/org/team100/lib/encoder/turning/Talon6TurningEncoder.java:53-55 | after a reset the position reads 0 |
| DrumShooter.GetVelocity | comp/swerve100/src/main/java/org/team100/frc2024/motion/shooter/DrumShooter.java:256-262 | empty exactly when either roller is; otherwise twice the result is the sum of the rollers, so it lies between them |
| DrumShooter.Forward | comp/swerve100/src/main/java/org/team100/frc2024/motion/shooter/DrumShooter.java:210-213 | left roller at 20 m/s, right roller at 15 m/s, pivot untouched |
| DrumShooter.Stop | comp/swerve100/src/main/java/org/team100/frc2024/motion/shooter/DrumShooter.java:215-219 | both rollers at 0 m/s and the pivot stopped once more |
| DrumShooter.Feed | comp/swerve100/src/main/java/org/team100/frc2024/motion/shooter/DrumShooter.java:245-248 | both rollers at 1 m/s, pivot untouched |
| DrumShooter.Outtake | comp/swerve100/src/main/java/org/team100/frc2024/motion/shooter/DrumShooter.java:250-253 | both rollers at -6 m/s, pivot untouched |
| DrumShooter.AtVelocitySetpointWide | comp/swerve100/src/main/java/org/team100/frc2024/motion/shooter/DrumShooter.java:282-298 | false without both measurements; the wide check asks for more than 10 and 7.5 m/s, and the narrow one for each roller strictly within 0.5 m/s of 20 and 15 |
| DrumShooter.AtVelocitySetpoint | comp/swerve100/src/main/java/org/team100/frc2024/motion/shooter/DrumShooter.java:265-276 | the no-argument check is the narrow check |
| DrumShooter.ReadyToShoot | comp/swerve100/src/main/java/org/team100/frc2024/motion/shooter/DrumShooter.java:233-235 | ready to shoot is the narrow check |
| DrumShooter.NarrowImpliesWide | comp/swerve100/src/main/java/org/team100/frc2024/motion/shooter/DrumShooter.java:282-298 | passing the narrow check implies passing the wide one |
| DrumShooter.ForwardSetpointsAreReady | comp/swerve100/src/main/java/org/team100/frc2024/motion/shooter/DrumShooter.java:210-213 | rollers exactly at the forward setpoints are ready, with mean 17.5 m/s |
| DrumShooter.StoppedIsNotReady | comp/swerve100/src/main/java/org/team100/frc2024/motion/shooter/DrumShooter.java:215-219 | idle rollers pass neither check |
| AmpPivot.DelegatesOnceUnchanged | comp/swerve100/src/main/java/org/team100/frc2024/motion/amp/AmpPivot.java:77-92 | each delegating operation makes exactly one servo call carrying its argument unchanged, and different operations make different calls |
| AmpPivot.Delegate | comp/swerve100/src/main/java/org/team100/frc2024/motion/amp/AmpPivot.java:77-92 | each delegating operation makes exactly one servo call |
| AmpPivot.GetPositionRad | comp/swerve100/src/main/java/org/team100/frc2024/motion/amp/AmpPivot.java:94-96 | the servo measurement is returned unchanged |
| AmpPivot.InPosition | comp/swerve100/src/main/java/org/team100/frc2024/motion/amp/AmpPivot.java:98-105 | empty exactly when there is no measurement; otherwise true exactly when the angle is strictly between pi/2 and 3pi/4 |
| AmpPivot.WindowIsOpen | comp/swerve100/src/main/java/org/team100/frc2024/motion/amp/AmpPivot.java:102-104 | both window ends read as out of position, and the middle reads as in position |
| ClimberPosition.Execute | comp/swerve100/src/main/java/org/team100/frc2024/motion/climber/ClimberPosition.java:51-54 | both servos, left then right, are sent to the same goal |
| ClimberPosition.Initialize | comp/swerve100/src/main/java/org/team100/frc2024/motion/climber/ClimberPosition.java:44-48 | resets the left servo, then the right one, then sets the climbing force |
| ClimberPosition.End | comp/swerve100/src/main/java/org/team100/frc2024/motion/climber/ClimberPosition.java:69-72 | stops the left servo, then the right one |
| ClimberPosition.IsFinished | comp/swerve100/src/main/java/org/team100/frc2024/motion/climber/ClimberPosition.java:57-66 | finished exactly when each side is strictly within 0.01 m of the goal or has no measurement |
| ClimberPosition.NoMeasurementFinishes | comp/swerve100/src/main/java/org/team100/frc2024/motion/climber/ClimberPosition.java:60-64 | with no measurements at all the command finishes at once |
| ClimberPosition.BothSidesTreatedAlike | comp/swerve100/src/main/java/org/team100/frc2024/motion/climber/ClimberPosition.java:44-72 | each side is reset once, driven to the goal and stopped once, and the climbing force comes after both resets |
| AutoMaker.TranslationForAlliance | comp/swerve100/src/main/java/org/team100/frc2024/motion/AutoMaker.java:108-113 | blue leaves a translation unchanged; red keeps x and reflects y across the 8.221 m field width |
| AutoMaker.TranslationMirrorIsInvolution | comp/swerve100/src/main/java/org/team100/frc2024/motion/AutoMaker.java:108-113 | mirroring a translation twice gives it back, for either alliance |
| AutoMaker.RotationForAlliance | comp/swerve100/src/main/java/org/team100/frc2024/motion/AutoMaker.java:115-117 | the angle is negated for either alliance, and the result stays on the unit circle |
| AutoMaker.RotationMirrorIsInvolution | comp/swerve100/src/main/java/org/team100/frc2024/motion/AutoMaker.java:115-117 | mirroring a rotation twice gives it back |
| AutoMaker.PoseForAlliance | comp/swerve100/src/main/java/org/team100/frc2024/motion/AutoMaker.java:119-121 | a pose is mirrored componentwise |
| AutoMaker.PoseMirrorIsInvolution | comp/swerve100/src/main/java/org/team100/frc2024/motion/AutoMaker.java:108-121 | mirroring a pose twice gives it back |
| AutoMaker.BluePoseIsTurned | comp/swerve100/src/main/java/org/team100/frc2024/motion/AutoMaker.java:115-121 | as written, a blue pose facing pi/2 keeps its translation but is turned to face -pi/2 |
| AutoMaker.PoseForAllianceCorrected | comp/swerve100/src/main/java/org/team100/frc2024/motion/AutoMaker.java:108-121 | blue leaves a pose unchanged, and red mirrors it as the source does |
| AutoMaker.CorrectedPoseMirrorIsInvolution | comp/swerve100/src/main/java/org/team100/frc2024/motion/AutoMaker.java:108-121 | the corrected mirroring is also an involution |
| AutoMaker.GetTranslation | comp/swerve100/src/main/java/org/team100/frc2024/motion/AutoMaker.java:41-76 | mirroring the result back gives the blue table entry, and every point lies strictly inside the field width |
| AutoMaker.GetPose | comp/swerve100/src/main/java/org/team100/frc2024/motion/AutoMaker.java:78-95 | stage openings face pi; shots face the aim; near notes sit the intake offset along the aim heading; the far notes step back by the intake offset and face pi |
| AutoMaker.FarNotePoses | comp/swerve100/src/main/java/org/team100/frc2024/motion/AutoMaker.java:33-93 | the five centre-line notes are approached at x = 8.271 - 0.381 facing pi, for either alliance |
| Telemetry.AdmitIsTotalOrder | lib/src/main/java/org/team100/lib/telemetry/Telemetry.java:28-54 | admission is reflexive, transitive, total and antisymmetric |
| Telemetry.TraceAdmitsAllCompOnlyComp | lib/src/main/java/org/team100/lib/telemetry/Telemetry.java:33-53 | trace admits every level, and comp admits only comp |
| Telemetry.Initial | lib/src/main/java/org/team100/lib/telemetry/Telemetry.java:72-74 | the initial level admits every level |
| Telemetry.SetLevel | lib/src/main/java/org/team100/lib/telemetry/Telemetry.java:120-122 | afterwards the root admits exactly what the new level admits |
| Telemetry.SetLevelFilters | lib/src/main/java/org/team100/lib/telemetry/Telemetry.java:28-122 | comp filters out debug and trace, and setting trace again restores the initial state |
| UdpLogger.New | lib/src/main/java/org/team100/lib/telemetry/UdpPrimitiveLogger2.java:57-62 | no labels, nothing queued, nothing sent, and the flush time is 0 |
| UdpLogger.GetKey | lib/src/main/java/org/team100/lib/telemetry/UdpPrimitiveLogger2.java:64-71 | the key is 16 plus the number of earlier labels, and the label is stored under it |
| UdpLogger.KeysAreDistinct | lib/src/main/java/org/team100/lib/telemetry/UdpPrimitiveLogger2.java:67-71 | two successive allocations give different keys, even for the same name, and each key still finds its own name |
| UdpLogger.BooleanLogger | lib/src/main/java/org/team100/lib/telemetry/UdpPrimitiveLogger2.java:129-133 | the boolean logger gets the next key, 16 plus the number of labels, and the label is registered; nothing else changes |
| UdpLogger.LogBoolean | lib/src/main/java/org/team100/lib/telemetry/UdpPrimitiveLogger2.java:124-127 | the key now maps to the value, no other key changes or appears, and the other queues are untouched |
| UdpLogger.StringLogger | lib/src/main/java/org/team100/lib/telemetry/UdpPrimitiveLogger2.java:164-170 | the string logger takes the next key when it is created, and the label is registered; nothing else changes |
| UdpLogger.LogString | lib/src/main/java/org/team100/lib/telemetry/UdpPrimitiveLogger2.java:172-175 | the key now maps to the value, no other key changes or appears, and the other queues are untouched |
| UdpLogger.NewestValueWins | lib/src/main/java/org/team100/lib/telemetry/UdpPrimitiveLogger2.java:116-176 | logging a key twice within a period is the same as logging only the newer value |
| UdpLogger.OtherKeysUntouched | lib/src/main/java/org/team100/lib/telemetry/UdpPrimitiveLogger2.java:124-127 | logging one key leaves every other key's queued value alone and queues at most one more entry |
| UdpLogger.LogDouble | lib/src/main/java/org/team100/lib/telemetry/UdpPrimitiveLogger2.java:135-139 | as written, the label is registered again and the value is queued under the fresh key 16 plus the earlier label count; nothing else changes |
| UdpLogger.LogInt | lib/src/main/java/org/team100/lib/telemetry/UdpPrimitiveLogger2.java:141-145 | as written, the label is registered again and the value is queued under the fresh key 16 plus the earlier label count; nothing else changes |
| UdpLogger.LogDoubleArray | lib/src/main/java/org/team100/lib/telemetry/UdpPrimitiveLogger2.java:147-151 | as written, the label is registered again and the array is queued under the fresh key 16 plus the earlier label count; nothing else changes |
| UdpLogger.LogLong | lib/src/main/java/org/team100/lib/telemetry/UdpPrimitiveLogger2.java:158-162 | as written, the label is registered again and the value is queued under the fresh key 16 plus the earlier label count; nothing else changes |
| UdpLogger.RepeatedLabelQueuesTwice | lib/src/main/java/org/team100/lib/telemetry/UdpPrimitiveLogger2.java:135-139 | as written, logging one label twice stores it twice and queues both values under two keys |
| UdpLogger.KeyFor | lib/src/main/java/org/team100/lib/telemetry/UdpPrimitiveLogger2.java:64-71 | returns a key whose label is the name, reusing the existing key when there is one |
| UdpLogger.KeyForIsStable | lib/src/main/java/org/team100/lib/telemetry/UdpPrimitiveLogger2.java:64-71 | asking twice for the same label gives the same key and allocates nothing the second time |
| UdpLogger.LogDoubleCorrected | lib/src/main/java/org/team100/lib/telemetry/UdpPrimitiveLogger2.java:135-139 | a known label keeps its first key and registers nothing; a new label gets the next key; nothing else changes |
| UdpLogger.LogIntCorrected | lib/src/main/java/org/team100/lib/telemetry/UdpPrimitiveLogger2.java:141-145 | a known label keeps its first key and registers nothing; a new label gets the next key; nothing else changes |
| UdpLogger.LogDoubleArrayCorrected | lib/src/main/java/org/team100/lib/telemetry/UdpPrimitiveLogger2.java:147-151 | a known label keeps its first key and registers nothing; a new label gets the next key; nothing else changes |
| UdpLogger.LogLongCorrected | lib/src/main/java/org/team100/lib/telemetry/UdpPrimitiveLogger2.java:158-162 | a known label keeps its first key and registers nothing; a new label gets the next key; nothing else changes |
| UdpLogger.CorrectedNewestValueWins | lib/src/main/java/org/team100/lib/telemetry/UdpPrimitiveLogger2.java:29-30 | with key reuse, logging a label twice is the same as logging only the newer value, and adds at most one label |
| UdpLogger.PutAndMaybeSend | lib/src/main/java/org/team100/lib/telemetry/UdpPrimitiveLogger2.java:182-192 | fails exactly when the entry cannot fit even an empty packet; otherwise the entry is appended to the stream, every packet stays within capacity, and earlier packets are never altered |
| UdpLogger.Pack | lib/src/main/java/org/team100/lib/telemetry/UdpPrimitiveLogger2.java:194-246 | on success the packet being filled and every packet handed over stay within capacity |
| UdpLogger.PackCarriesEntries | lib/src/main/java/org/team100/lib/telemetry/UdpPrimitiveLogger2.java:194-246 | packing a list fails exactly when some entry is too big; otherwise the stream gains exactly that list, in order |
| UdpLogger.KeyOrder | lib/src/main/java/org/team100/lib/telemetry/UdpPrimitiveLogger2.java:195-200 | the iteration visits every queued key exactly once |
| UdpLogger.Flush | lib/src/main/java/org/team100/lib/telemetry/UdpPrimitiveLogger2.java:100-114 | fails exactly when some queued entry is too big; otherwise all six queues are emptied, at least one packet is handed over, and the handed packets are within capacity and carry exactly the queued entries, each once |
| UdpLogger.Periodic | lib/src/main/java/org/team100/lib/telemetry/UdpPrimitiveLogger2.java:73-81 | nothing happens until more than 0.1 s has passed; then a flush empties the queues, sends packets and records the new flush time |
| UdpLogger.PeriodicAsWritten | lib/src/main/java/org/team100/lib/telemetry/UdpPrimitiveLogger2.java:73-98 | as written, a due tick flushes and then throws on the unassigned label iterator, so the flush time never advances and the tick stays due |
| Friend.Act | studies/dyn4j_for_sim/src/main/java/org/team100/sim/Friend.java:32-55 | picking within 2 m of the source switches to scoring without a push; scoring within 2 m of the amp corner switches to picking; otherwise a 200 N push toward the current target and no goal change |
| Friend.GoalChangesIffNoPush | studies/dyn4j_for_sim/src/main/java/org/team100/sim/Friend.java:32-55 | the goal changes exactly on the ticks with no push, and every push has magnitude 200 |
| Friend.ScoringNeedsAVisitToTheSource | studies/dyn4j_for_sim/src/main/java/org/team100/sim/Friend.java:25-55 | starting from pick, the friend can be scoring only after some tick within 2 m of the source |

## Left out

- FirstOrderKinematics: the kinematics class itself is not part of this model. Only the behaviour its unit tests assert is modelled, and desaturation uses one cap where the class also has drive and steer limits.
- FirstOrderKinematics.DesaturateMeaning: requires a non-negative cap. With a negative cap the original multiplies every speed by cap over the largest speed, which flips every sign, and a zero largest speed would divide by zero; neither case is modelled.
- FirstOrderKinematics.StateFromVelocity: the threshold's value is a parameter, as are the norm and atan2.
- FirstOrderKinematics.AccelerationFromVector: the acceleration and steering rate of a moving module come from an abstract function, so only speed and angle are checked against the first-order states.
- SecondOrderKinematics.ToSwerveModuleRates: requires a nonzero speed for every module outside the zero short-circuit. The original divides by the speed and would produce infinity or NaN.
- SecondOrderKinematics.New: the pseudo-inverse is a parameter. Matrix inversion is not modelled.
- SteeringOverride.RotationRad: the difference of the two angles is kept as a plain number instead of a wrapped Rotation2d. The flip rule and angleModulus are given that number; both depend only on the angle modulo 2 pi, so the result is the same.
- SteeringOverride.ModuleDecision: a stalled module is written the previous angle plus one signed step without wrapping. Rotation2d.rotateBy would return the same angle reduced to (-pi, pi]; the two differ by a multiple of 2 pi.
- SteeringOverride.OverrideIfStopped: the step |rotation| / step <= 1 follows IEEE arithmetic. A zero step never fits and a negative step always fits.
- TurningEncoder.GetPosition: requires a nonzero gear ratio. A zero ratio gives infinity or NaN.
- TurningEncoder.Reset: the motor's own reset is taken to zero its revolution count.
- Rotate.New: the profile is a placeholder argument until initialize builds it.
- Rotate.Execute: the profile, the controller and steering alignment are parameters. Two-argument state constructors set acceleration to 0.
- SwerveLocal.SteerAtRest: the original fills null entries in place in an array it then stores. The model states the effect on the stored setpoint, not the Java aliasing.
- SwerveLocal.SteerAtRest: with fewer than four states the original has already sent the states and replaced the previous setpoint when resetHeadings throws. The model returns a failure and does not describe that partial effect.
- SwerveLocal: desaturation is a uniform factor computed by a collaborator, so the drive and steer limits are not modelled. Kinematics and the setpoint generator are parameters.
- TrajectoryListCommand: the trajectory iterator, the controller and the visualisation are parameters.
- AutoMaker.GetPose: the speaker-aim rotation (ShooterUtil) is a parameter. The getTranslation default branch is unreachable, because every field point has an entry.
- AutoMaker: the trajectory-building commands are not modelled.
- Telemetry: the network-table and UDP wiring and the logger objects are not modelled. Only the level and its admission rule are.
- UdpLogger.PutAndMaybeSend: the binary protocol encoder is reduced to a size per entry and a packet capacity.
- UdpLogger.Flush: a failed flush returns an error without the partial state the original leaves behind. HashMap iteration order is any order that visits every key once.
- UdpLogger.Periodic: the label dump is treated as doing nothing, and the clock reading is a parameter.
- UdpLogger: the double-object-array overload only forwards to logDoubleArray. Java int and long widths are not modelled, and keys are unbounded integers.
- Friend: the note scan, the obstacle-avoidance forces and the physics are not modelled. The 2 m test compares squared distance with 4, which has the same meaning for distances.
- NaN and infinity are not modelled anywhere: reals are exact.

## Findings

| source | as written | input that shows it | evidently intended | confidence | as-written member | corrected member |
|---|---|---|---|---|---|---|
| lib/src/main/java/org/team100/lib/telemetry/UdpPrimitiveLogger2.java:135-162 | logDouble, logInt, logDoubleArray and logLong call getKey on every call. getKey's own comment says to call it once per logger. | logging label "x" twice in one period stores "x" twice and queues two values under keys 16 and 17 | one key per label, so the newest value wins as the class comment promises | not executed; high | UdpLogger.RepeatedLabelQueuesTwice | UdpLogger.CorrectedNewestValueWins |
| comp/swerve100/src/main/java/org/team100/frc2024/motion/AutoMaker.java:115-121 | the rotation overload of forAlliance negates the angle for every alliance, while the translation overload is the identity for blue | blue pose ((1, 1), pi/2) becomes ((1, 1), -pi/2) | blue poses unchanged, red mirrored | not executed; medium | AutoMaker.BluePoseIsTurned | AutoMaker.PoseForAllianceCorrected |
| lib/src/main/java/org/team100/lib/telemetry/UdpPrimitiveLogger2.java:73-98 | periodic calls dumpLabels after flushing, and dumpLabels dereferences handleIterator, which is never assigned | any tick more than 0.1 s after the last flush: the flush happens, then a NullPointerException, and flushTime stays put | the label dump does nothing yet, and the flush time is recorded | not executed; high | UdpLogger.PeriodicAsWritten | UdpLogger.Periodic |
