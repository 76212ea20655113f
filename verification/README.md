# Verified model of the robot controller's motion, protocol and kernel code

This project models, in Dafny, the parts of the RoboCon controller firmware in which a mistake is hardest to
see by reading: the Ruckig trajectory generator, the framed serial protocols and their checksums, the kernel
primitives of RT-Thread, its performance counter, and the unwrapping of motor encoder angles.
`dafny verify dfyconfig.toml` checks the whole project.

**Trajectory generator** (`project/applications/ruckig`). Reals are exact, `std::sqrt` and `std::cbrt` are
function parameters of which only their defining equation is used, infinity is a constructor of `Time`, and the
named tolerances of the source are kept wherever a test or a claim mentions them.

- `Kinematics` knows nothing about the library: it proves that a trapezoidal motion is as fast as *any* motion
  of finitely many constant-acceleration segments between the same states within the same limits.
- `Profiles` is the profile object with its checks, and `Patterns` says what these accept in terms of the times and the
  control alone. `Blocks`, `SecondOrder`, `SecondOrderStep1`, `SecondOrderStep2`, `VelocityThird`, `VelocityThirdStep1`,
  `VelocityThirdStep2` are the blocks of impossible durations and the closed-form solvers. `SecondOrderForms` holds the
  forms of a prescribed duration, and `SecondOrderDurations` proves that together they match every motion to rest.
  `SecondOrderTargets` carries that over to moving targets, which are at rest in a frame that moves with them.
- `SecondOrderRoots` and `SecondOrderExtremals` prove that the extremal profiles of both directions tell exactly which
  durations some motion within the limits takes, and which of them the calls find, how often. `ProfileLists` says what
  block is made of any profiles found, `BlockTable` exactly when that block is right, and `PlateauTable` the same for
  velocity profiles.
- `Synchronization` is the choice of one duration for all axes, `PhaseSynchronization` the case in which they also share
  their phases and so move along a straight line, and `PhaseAcceptance` says when that succeeds. `Brake`, `Trajectory`
  and `Motion` are braking, sampling, and the two together at every real time; `Control` is the cycle that produces one
  set point after another. `Quartics`, `Newton` and `SafeNewton` are the root finders, `Waypoints` the waypoint filter.

**Serial protocols**. `CrcDivision` defines checksums as bit-by-bit polynomial division; `Crc` and `FlowCheck`
prove the table-driven and the reflected implementations equal to it; `CrcOrder`, `CrcParity`, `CrcDetection`
and `CrcGuarantees` prove which errors they cannot miss. `FdiFrames` and `FlowFrames` say what a byte stream
means, independent of any parser; `FdiLink` and `FlowDecode` are the parsers and senders, proved to agree with
that meaning byte by byte; `FdiCorruption` combines both.

**Kernel**. `Atomic` runs the compare-and-swap retry loop under every interleaving. `KernelLists` relates the
intrusive lists on the heap to sequences of nodes. `PerfClock` is the cycle counter with its residues,
`TaskCycles` the per-task accounts, and `TaskAccounts` what any history of events makes of them.
**Motor encoder**: `Encoder`.

Classes in the source are classes here, their loops are loops, and each method is proved against a
specification function or predicate whose own properties are then proved as lemmas.

## Where the code does not do what is said of it

The model follows the code; each of these is a proved statement.

- *Extremal velocity profiles can be refused although a solution exists* (`VelocityThird`). The check of
  `time_acc0` wants at least 2^-52 s at the acceleration limit. If the peak acceleration of the profile without
  that phase exceeds the limit by more than the tolerance, and yet the time at the limit is shorter, no call
  accepts anything. The condition is `UpSliver` / `DownSliver`, it is decidable before the call, it is exact, and
  `SliverExample` gives an input. For a target with acceleration single profiles can be missing for the same reason, and
  `PlateauTold` says exactly when the block is right nevertheless. The second-order position solver makes no such test and
  has no gap for a target at rest; for one that moves see the next item.
- *A profile with its peak at the velocity limit is found twice* (`SecondOrderStep1`), for a target that moves: `time_acc0`
  adds a cruise that takes no time, and the check lets a peak be 1e-12 above the limit. The number of profiles is that of
  the extremal ones, at most three, and one more for each direction whose peak is between the limit and 1e-12 above it
  (`BlockTable.CountExactly`). Four profiles make no block unless two of them are taken for the same one; exactly when they
  are not is `Refused`, and `FourProfiles` is a call that fails although a motion of 4 s exists. Whether the block blocks
  exactly the durations that no motion takes is decided by the durations of the extremal profiles (`BlockTold`): it always
  does if no peak is in that range and no profile takes more than `t_max`. `FiveProfiles` is a call whose block blocks 6 s,
  which a motion takes.
- *The third profile found leaves `valid_profiles`* (`SecondOrderStep1`, `VelocityThirdStep1`): the array has room for three,
  and `add_profile` prepares the slot after the one just filled. It writes behind the array exactly if at least three
  profiles are found.
- *Velocity profiles of a prescribed duration can be refused for the same reason* (`VelocityThirdStep2`): the same test
  refuses the candidate that matches the duration if its peak is held for less than 2^-52 s, as in the fastest profile
  without a plateau. A profile is found exactly if one of five forms passes in one of the two directions
  (`GetProfile`, with `StillExactly`, `RampExactly` and `TwoStepExactly` for what passing means). `MatchedUnlessBrief`
  says that there is no other gap, `TriangleIsRefused` gives an input. The second-order step has no gap at all: it finds a
  profile for every duration that a motion takes.
- *`total_angle` is short by one count per turn* (`Encoder`): it multiplies the turns of an 8192-count encoder
  by 8191. It is right exactly if the position is in the same turn as the origin; `OneTurnForwards` is a run of
  8200 counts that it reports as 8199.
- *A reading of the clock can be wrong by a whole timer period* (`PerfClock`): the comment above
  `check_systick` calls its logic equivalent to three conditions; a wrap that has been pending until the timer is
  below 16 again is not compensated for. What the registers tell falls in exactly the two states `AboutToFall`, and
  `MillisecondsCanGoBack` is a run on which `get_system_ms` returns 1 and then 0. `get_system_ticks` cannot go back.
- *`rt_atomic_dec_and_test` is true when the counter was zero before*, not when it becomes zero (`Atomic`): the two
  agree exactly if the counter, read as an unsigned word, was above 1, so for a negative one too, and
  `DecAndTestMisses` shows both failures.
- *The flow parsers do not resynchronise* (`FlowFrames`): a stray start byte in front of a report makes them miss it.
- *An empty packed FDILink frame is three bytes too long* (`FdiLink`): `FDILink_Pack` appends two checksum bytes and an
  end flag, which the receiver answers with two errors and then a 0 (`TrailerAnswers`); delivery is still exactly once.
- *Every byte that arrives between frames resets the transmit number* (`FdiLink`): `FDILink_Reset` runs in the start state.
- *`motor_get_by_canid` leaves the table, or never returns, for an id below the first one* (`Encoder`): its eight-bit
  right end wraps. With at most 127 entries it reads past the table; with more it looks for ever, as it does for an id
  above the last one of 256. `SearchOutcome` says exactly which.
- *Discretised durations can be off the grid* (`Synchronization`): a time no more than 2^-52 s above a multiple is not
  rounded. The chosen duration is on the grid exactly if the candidate taken is not such a time; `OffTheGrid` is a call
  that returns 1 s and 2^-52 s for a step of 1 s.
- *Five profiles can block durations that they allow* (`Blocks`): the two intervals made from them describe them exactly
  if they are apart; `NestedIntervals` is an input where they are not.
- *The waypoint filter can drop a waypoint that is far off the line* (`Waypoints`): for a line without extent in some
  coordinate the interval of parameters is not a number, which `std::max` and `std::min` pass over. The test is right
  for every waypoint exactly if the line extends in every coordinate; `FarWaypointPasses` is an input.
- *A distance that does not count can keep axes from being collinear* (`PhaseSynchronization`): the test compares the
  distances of all axes that take part, also of those controlled by velocity, and it measures by the distance of the
  first axis that moves even where that does not count. If all that counts lies on one line, the answer is yes exactly
  if the test is `Fair` to every axis (`LineFoundExactly`): measured by distances, every axis has its distance counted,
  or on the line, or nothing but distances is asked for; measured by another vector, every axis whose distance counts
  stands still, or the measuring axis has its distance on the line. `IdleDistanceSpoils` makes a call for
  each way to fail.

## Model

| member | source | states |
|---|---|---|
| Kinematics.TrapezoidIsFastest | project/applications/ruckig/position_second_step1.cpp:114-128 | Why the first profile found is extremal: no motion within the velocity and acceleration limits, of any number of segments, is faster than a trapezoid between the same states |
| Kinematics.MirroredTrapezoidIsFastest | project/applications/ruckig/position_second_step1.cpp:126-128 | The same for a motion in the negative direction, which the solver tries with exchanged limits |
| SecondOrder.NoneReaches | project/applications/ruckig/position_second_step1.cpp:25-63 | Both roots of the peak velocity give profiles that reach target position and velocity exactly, for all inputs with a non-negative square |
| SecondOrder.Acc0Reaches | project/applications/ruckig/position_second_step1.cpp:11-23 | The profile with a cruise reaches target position and velocity exactly, for all inputs |
| SecondOrder.ThreeAccepted | project/applications/ruckig/profile.hpp:305-348 | For an exact three-segment profile the whole check is equivalent to non-negative times, a bounded total and two velocities inside their limits |
| SecondOrder.SomeSolution | project/applications/ruckig/position_second_step1.cpp:114-128 | For a target at rest one of the four tried cases is a solution within the limits, for every start inside the limits |
| SecondOrder.EverythingTakesTooLong | project/applications/ruckig/position_second_step1.cpp:114-139 | If all four calls fail, every motion within the limits takes longer than `t_max` |
| SecondOrderStep1.PositionSecondOrderStep1.TimeNone | project/applications/ruckig/position_second_step1.cpp:25-63 | The profiles added are exactly the solutions over the two roots that the check lets through, in their order, or the first of them if the search is to end there |
| SecondOrderStep1.PositionSecondOrderStep1.TimeAcc0 | project/applications/ruckig/position_second_step1.cpp:11-23 | The cruising profile is added exactly if it is a solution that the check lets through, a cruise of no time included |
| SecondOrderStep1.PositionSecondOrderStep1.GetProfile | project/applications/ruckig/position_second_step1.cpp:110-139 | For a target at rest no motion within the limits takes less than the minimum duration of the block, whose profile solves the axis exactly, with velocities up to 1e-12 beyond the limits, and failure means that every motion exceeds `t_max`. For one that moves: which profiles are found, when a slot behind the array is written, when there is a block and what it leaves open, and exactly when it blocks the durations that no motion takes and no others |
| SecondOrderStep1.PositionSecondOrderStep1.SolvedIsAttained | project/applications/ruckig/position_second_step1.cpp:110-139 | For a target at rest the minimum duration is attained by a motion that is within the limits exactly if the peak of the profile is |
| SecondOrderStep1.PositionSecondOrderStep1.AddProfile | project/applications/ruckig/position.hpp:117-121 | The next slot gets the boundary of the one just filled; it lies behind the array exactly from the third profile on |
| SecondOrderStep1.FourProfiles | project/applications/ruckig/block.hpp:85-98 | A call that finds four profiles and makes no block, although a motion of 4 s reaches the target |
| SecondOrderStep1.FiveProfiles | project/applications/ruckig/block.hpp:115-129 | A call whose block blocks a duration of 6 s, which a motion within the limits takes |
| SecondOrderForms.UpDownReaches | project/applications/ruckig/position_second_step2.cpp:15-31 | The up-cruise-down form of a prescribed duration reaches the target exactly whenever its square root exists |
| SecondOrderForms.UpUpReaches | project/applications/ruckig/position_second_step2.cpp:33-49 | The up-cruise-up form reaches the target exactly whenever its denominators are not zero |
| SecondOrderForms.RampReaches | project/applications/ruckig/position_second_step2.cpp:86-104 | The form with a free acceleration reaches the target exactly |
| SecondOrderDurations.SquareOfCruise | project/applications/ruckig/position_second_step2.cpp:15-31 | Conversely, whatever goes up, cruises and goes down to rest in the given time has its cruise time for a root of the square computed |
| SecondOrderTargets.FeasibleExactly | project/applications/ruckig/position_second_step2.cpp:109-117 | For any target velocity: some motion within the limits, of any number of segments, takes exactly a given duration if and only if one of four candidates matches it, and if and only if the duration is enough for the velocities and the distance neither too far nor too near for it |
| SecondOrderTargets.AnyDurationFits | project/applications/ruckig/position_second_step2.cpp:109-117 | Every motion within the limits, of any number of segments and to a target at any velocity, has one of four candidates to match it: same start, same target, same duration, speed within limits |
| SecondOrderTargets.LongerDurationsFit | project/applications/ruckig/position_second_step2.cpp:109-117 | To a target at rest, so has every longer duration |
| SecondOrderRoots.EnergyAgainst | project/applications/ruckig/position_second_step1.cpp:25-28 | The radicands of both steps agree: the square under the root for a prescribed duration is not negative exactly if the peak of the profile that spends it all on its flanks has at least the extremal energy |
| SecondOrderRoots.FarExactly | project/applications/ruckig/position_second_step1.cpp:11-63 | A target is not too far for a duration exactly if the duration is outside the two extremal ones of that direction, the longer of which cruises if its peak would be above the limit |
| SecondOrderRoots.WaysTogether | project/applications/ruckig/position_second_step1.cpp:130-135 | Unless nothing moves, one of the two directions has exactly one extremal profile; if both have, its peak is the start or the target |
| SecondOrderExtremals.DurationsExactly | project/applications/ruckig/position_second_step1.cpp:130-135 | For any start and target inside the limits, at any velocity: the extremal profiles of both directions, at most three, tell exactly which durations some motion within the limits, of any number of segments, takes |
| SecondOrderExtremals.FoundExactly | project/applications/ruckig/position_second_step1.cpp:130-135 | The four calls find exactly these as far as they do not take more than `t_max`, one whose peak is between the limit and 1e-12 above it both without and with a cruise |
| SecondOrderExtremals.BlockExactly | project/applications/ruckig/position_second_step1.cpp:130-139 | For every start and target inside the limits: when there is a block, what it leaves open, how many profiles there are, and exactly when the block blocks the durations that no motion takes and no others |
| BlockTable.CountExactly | project/applications/ruckig/position_second_step1.cpp:130-135 | Between one and three extremal profiles, and one more for each direction with its peak at the limit |
| BlockTable.RefusedExactly | project/applications/ruckig/block.hpp:59-101 | No block is made exactly if there are four profiles of which no two that are compared are taken for the same one, by their durations |
| BlockTable.RightExactly | project/applications/ruckig/block.hpp:59-132 | The block leaves open exactly what both directions allow if and only if their durations meet the stated condition, whichever peaks are at their limits |
| BlockTable.LateExactly | project/applications/ruckig/profile.hpp:320-322 | The same if some profile takes more than `t_max`, so that it is not found |
| ProfileLists.BlockOpen | project/applications/ruckig/block.hpp:59-132 | A block leaves open exactly what the durations and directions of the profiles it is made of say |
| SecondOrderStep2.PositionSecondOrderStep2.TimeAcc0 | project/applications/ruckig/position_second_step2.cpp:14-68 | An accepted profile lasts exactly the prescribed duration, and ends exactly on target unless it is of the two-step form; one is accepted exactly if one of the three forms with full acceleration passes |
| SecondOrderStep2.PositionSecondOrderStep2.TimeNone | project/applications/ruckig/position_second_step2.cpp:70-107 | An accepted profile lasts exactly the prescribed duration and ends exactly on target; one is accepted exactly if the form that stands still or the one with an acceleration of its own passes |
| SecondOrderStep2.PositionSecondOrderStep2.StillExactly | project/applications/ruckig/position_second_step2.cpp:71-84 | The form that stands still passes exactly if the axis stands and is to stand still, for a time up to `t_max` |
| SecondOrderStep2.PositionSecondOrderStep2.RampExactly | project/applications/ruckig/position_second_step2.cpp:86-104 | The form with an acceleration of its own passes exactly if that acceleration is allowed, its times are in order and the speed held is within limits |
| SecondOrderStep2.PositionSecondOrderStep2.TwoStepExactly | project/applications/ruckig/position_second_step2.cpp:51-65 | The two-step form passes exactly if there is time to wait first, the speed waited at is within limits and the distance covered is within the tolerance of the target |
| SecondOrderStep2.PositionSecondOrderStep2.GetProfile | project/applications/ruckig/position_second_step2.cpp:109-117 | Something is found exactly if one of the five forms passes in one of the two directions, that of the target if it does; it lasts exactly the prescribed duration, which is why the check makes no test of it; for any target velocity that is so for every duration up to `t_max` that some motion within the limits takes, and for a target at rest for every longer one |
| VelocityThird.PeakSquare | project/applications/ruckig/velocity_third_step1.cpp:25-28 | The squared peak acceleration is the squared peak velocity of the second-order solver one derivative lower |
| VelocityThird.TimeAtLimit | project/applications/ruckig/velocity_third_step1.cpp:11-18 | The time at the acceleration limit is the cruise time of the second-order solver one derivative lower |
| VelocityThird.VelocityAccepted | project/applications/ruckig/profile.hpp:59-108 | For an exact three-segment profile the check is equivalent to non-negative times, a bounded total, two accelerations inside their limits and, for ACC0, a time of at least 2^-52 s at the limit |
| VelocityThird.SliverFindsNothing | project/applications/ruckig/velocity_third_step1.cpp:114-128 | Under the sliver condition, in either direction, none of the four calls finds anything |
| VelocityThird.SliverHasSolution | project/applications/ruckig/velocity_third_step1.cpp:11-23 | Under the same condition, in either direction, the refused profile is a solution within all limits |
| VelocityThird.SliverExample | project/applications/ruckig/profile.hpp:74-78 | A concrete start, target and limits that satisfy the condition |
| VelocityThird.WithoutSliverTooLong | project/applications/ruckig/velocity_third_step1.cpp:114-138 | Outside the condition, failure of all four calls means that every motion within the limits exceeds `t_max` |
| VelocityThirdStep1.VelocityThirdOrderStep1.GetProfile | project/applications/ruckig/velocity_third_step1.cpp:110-138 | For a target without acceleration no motion within acceleration and jerk limits takes less than the minimum duration of the block; the call fails in every sliver, and otherwise only if every motion exceeds `t_max`. For one with acceleration: which profiles are found and how many, when a slot behind the array is written, when there is a block and what it leaves open, and exactly when it blocks the durations that no motion takes and no others |
| VelocityThirdStep1.VelocityThirdOrderStep1.SolvedIsAttained | project/applications/ruckig/velocity_third_step1.cpp:110-138 | For a target without acceleration the minimum duration is attained by a motion that is within the limits exactly if the peak acceleration of the profile is |
| VelocityThirdStep1.VelocityFoundExactly | project/applications/ruckig/velocity_third_step1.cpp:129-134 | For a target with acceleration the calls find exactly the extremal profiles of both directions that do not take more than `t_max`: without a plateau unless the peak is above the limit by more than 1e-12, and with one if it takes at least 2^-52 s |
| VelocityThirdStep1.AnswerExactly | project/applications/ruckig/velocity_third_step1.cpp:129-138 | For every start and target inside the limits: when there is a block, what it leaves open, how many profiles there are, and exactly when the block is right |
| PlateauTable.PlateauExactly | project/applications/ruckig/profile.hpp:74-78 | The block leaves open exactly what both directions allow if and only if their durations, and which plateaus take long enough, meet the stated condition, whichever profiles are missing, found twice or found without their plateau |
| PlateauTable.CountedExactly | project/applications/ruckig/velocity_third_step1.cpp:129-134 | One profile more for each that is found twice and one less for each that is missing |
| VelocityThirdStep2.SameCruiseSquare | project/applications/ruckig/velocity_third_step2.cpp:15-31 | The square under the root is the second-order one for equal and opposite jerks |
| VelocityThirdStep2.VelocityThirdOrderStep2.TimeAcc0 | project/applications/ruckig/velocity_third_step2.cpp:14-68 | An accepted profile lasts exactly the prescribed duration, and reaches velocity and acceleration exactly unless it is of the two-step form; one is accepted exactly if one of the three forms with full jerk passes |
| VelocityThirdStep2.VelocityThirdOrderStep2.TimeNone | project/applications/ruckig/velocity_third_step2.cpp:70-107 | An accepted profile lasts exactly the prescribed duration and reaches the target exactly; one is accepted exactly if the form that stands still or the one with a jerk of its own passes |
| VelocityThirdStep2.VelocityThirdOrderStep2.StillExactly | project/applications/ruckig/velocity_third_step2.cpp:71-84 | The form that stands still passes exactly if the axis stands and is to stand still, for a time up to `t_max` |
| VelocityThirdStep2.VelocityThirdOrderStep2.RampExactly | project/applications/ruckig/velocity_third_step2.cpp:86-104 | The form with a jerk of its own passes exactly if that jerk is allowed, its times are in order and the acceleration held is within limits |
| VelocityThirdStep2.VelocityThirdOrderStep2.TwoStepExactly | project/applications/ruckig/velocity_third_step2.cpp:51-65 | The two-step form passes exactly if there is time to wait first, the acceleration waited at is within limits and the velocity gained is within the tolerance of the target |
| VelocityThirdStep2.VelocityThirdOrderStep2.GetProfile | project/applications/ruckig/velocity_third_step2.cpp:109-117 | Something is found exactly if one of the five forms passes in one of the two directions, that of the target if it does, for every start, target and duration; it lasts exactly the prescribed duration, with the target as above |
| VelocityThirdStep2.VelocityThirdOrderStep2.MatchedUnlessBrief | project/applications/ruckig/velocity_third_step2.cpp:109-117 | For any target acceleration, every duration that some motion within the limits takes, and for a target without acceleration every longer one, is matched by a candidate; if none of them is accepted, one holds its peak for less than 2^-52 s |
| VelocityThirdStep2.TriangleIsRefused | project/applications/ruckig/profile.hpp:74-78 | A call that finds nothing for a duration that a motion within the limits takes |
| Profiles.Profile.CheckForSecondOrder | project/applications/ruckig/profile.hpp:305-348 | Accepts exactly if the motion defined by the times keeps the velocity limits at the knots and meets the target; the recorded states are those of that motion |
| Profiles.Profile.CheckForVelocity | project/applications/ruckig/profile.hpp:59-108 | Accepts exactly if the motion under the pattern of jerks meets the velocity target inside the acceleration limits; the recorded states, positions included, follow from each other under these jerks |
| Profiles.Profile.Check | project/applications/ruckig/profile.hpp:173-270 | Accepts exactly if times, knots, sign changes of the acceleration and target satisfy the third-order conditions, for every limit instance with and without overwriting; `Patterns` says what they amount to without naming them |
| Profiles.Profile.SetBoundary | project/applications/ruckig/profile.hpp:283-292 | Start, target and the durations of the brakes are taken over, the times are not |
| Patterns.SecondOrderExactly | project/applications/ruckig/profile.hpp:305-348 | For all times and both patterns: the second-order check accepts exactly if the end of the profile, each control contributing by its time and what comes after it, is on target and the velocities after the first three controls keep the limits |
| Patterns.VelocityExactly | project/applications/ruckig/profile.hpp:59-108 | The same for the check of a velocity target, a derivative lower, with the one instance that wants its plateau to last |
| Patterns.ThirdOrderEnds | project/applications/ruckig/profile.hpp:210-222 | Where a third-order profile ends, from any start and for all times and both patterns: position, velocity and acceleration as sums over its four jerks |
| Patterns.NothingWrittenExactly | project/applications/ruckig/profile.hpp:224-247 | A check integrates the motion itself exactly if the accelerations its instance may write are there anyway |
| Patterns.KeepingIsAccepted | project/applications/ruckig/profile.hpp:173-270 | Conversely to what acceptance promises: a profile on target whose motion keeps the limits is accepted; the test at a sign change fails only where the velocity really leaves them |
| Patterns.TwoChangesExactly | project/applications/ruckig/profile.hpp:173-270 | A profile of two changes of velocity and a cruise between them is accepted exactly if no time is negative, no phase its instance is named after is empty, its end, in closed form, is on target, and its largest accelerations and velocities keep the limits; both patterns, all instances |
| Patterns.RestToRestExactly | project/applications/ruckig/profile.hpp:173-270 | From rest to rest, with times x, y, x, z, x, y, x: accepted exactly if the distance jf x (x + y) (2x + y + z) is the one asked for, jf x and jf x (x + y) are inside the limits, the total is bounded and the phases are not empty |
| Blocks.Between | project/applications/ruckig/block.hpp:31-43 | The interval between two profiles ends with the longer one, whichever is given first |
| Blocks.RemoveProfile | project/applications/ruckig/block.hpp:16-22 | Removes one profile from the array and keeps the order of the others |
| Blocks.DescribesThree | project/applications/ruckig/block.hpp:102-113 | Three profiles block exactly the durations below the shortest and strictly between the two longer ones |
| Blocks.DescribesTwo | project/applications/ruckig/block.hpp:76-83 | Two profiles of different length block exactly the durations below the shorter and strictly between them |
| Blocks.DescribesFive | project/applications/ruckig/block.hpp:115-129 | Five profiles allow the durations at which an odd number of them has become possible, or one lasts exactly that long; the two intervals describe that exactly if they are apart |
| Blocks.NestedIntervals | project/applications/ruckig/block.hpp:115-129 | An input where a duration is blocked although it is possible |
| Blocks.Block.CalculateBlock | project/applications/ruckig/block.hpp:59-132 | For any number of profiles: a block is made from one, two, three or five, and from four with an identical pair; it blocks exactly the durations that its profiles do not allow unless there are five whose intervals overlap, and every recorded profile lasts as long as its end says |
| Blocks.Block.ProfileFits | project/applications/ruckig/block.hpp:134-146 | The profile looked up for a duration that is not blocked does not last longer than it |
| Synchronization.RoundUpRange | project/applications/ruckig/calculator_target.hpp:145-156 | Rounding goes up, by less than one step |
| Synchronization.RoundUpOnGrid | project/applications/ruckig/calculator_target.hpp:145-156 | A rounded time is a multiple of the step exactly if the time is not within rounding error above one |
| Synchronization.CandidateBelow | project/applications/ruckig/calculator_target.hpp:126-143 | Below every admissible duration on the grid lies an admissible candidate that is not below any minimum |
| Synchronization.SearchFinds | project/applications/ruckig/calculator_target.hpp:158-178 | Starting the sorted search at position n-1 misses nothing: some entry from there on is admissible and not above any admissible duration |
| Synchronization.TargetCalculator.Collect | project/applications/ruckig/calculator_target.hpp:126-143 | All 3n+1 candidates, and whether any interval or minimum exists |
| Synchronization.TargetCalculator.Discretize | project/applications/ruckig/calculator_target.hpp:145-156 | Every candidate is rounded up and infinite ones stay |
| Synchronization.TargetCalculator.SortIndices | project/applications/ruckig/calculator_target.hpp:158-161 | The indices become a permutation that lists the candidates in ascending order |
| Synchronization.TargetCalculator.FirstAcceptable | project/applications/ruckig/calculator_target.hpp:163-178 | The first entry from position n-1 on that no synchronised axis blocks and that is not below the minimum |
| Synchronization.TargetCalculator.Limit | project/applications/ruckig/calculator_target.hpp:180-199 | The limiting axis and its profile: as a whole the one its block keeps for the entry taken, which lasts the chosen duration up to the rounding; only that axis is written |
| Synchronization.TargetCalculator.LimitingWasFound | project/applications/ruckig/calculator_target.hpp:180-199 | If the block was made from profiles found for the axis, the limiting axis moves along one of them |
| Synchronization.TargetCalculator.Synchronize | project/applications/ruckig/calculator_target.hpp:123-203 | The chosen duration is admissible and least among all real durations, or all multiples of the step; none is returned only if none exists; it is a multiple of the step exactly if the candidate taken is not within rounding error above one; in continuous mode the limiting axis' profile lasts exactly that long |
| Synchronization.ChosenOnGrid | project/applications/ruckig/calculator_target.hpp:145-156 | A rounded candidate is a multiple of the step exactly if the candidate is not within rounding error above one |
| Synchronization.TargetCalculator.Choose | project/applications/ruckig/calculator_target.hpp:145-178 | The entry taken is the first from position n-1 on, in ascending order of the rounded times, that is admissible |
| Synchronization.OffTheGrid | project/applications/ruckig/calculator_target.hpp:151-154 | A call in discrete mode that returns a duration off the grid |
| Brake.VelocityBrakeLands | project/applications/ruckig/brake.cpp:38-56 | Both times are non-negative, leave the acceleration inside its limits and enough velocity to stop the brake above the lower limit; and a too high velocity is brought down to its limit and not below, up to rounding, unless stopping leads to the lower limit by then |
| Brake.AccelerationBrakeLands | project/applications/ruckig/brake.cpp:14-36 | The same from an acceleration above its limit, and every square root taken has a non-negative argument; a recoverable velocity stays recoverable, and the acceleration is held just inside its limit until the velocity is up at the lower limit, or stopping leads to the upper one |
| Brake.VelocityBrakeMirrored | project/applications/ruckig/brake.cpp:77-78 | The call with exchanged limits and negated jerk brakes exactly like the mirrored state |
| Brake.AccelerationBrakeMirrored | project/applications/ruckig/brake.cpp:71-72 | The same for the acceleration brake |
| Brake.BrakeProfile.GetPositionBrakeTrajectory | project/applications/ruckig/brake.cpp:58-80 | For every state: brakes downwards exactly if the acceleration is too high, or the velocity is, or will be once stopped, while the lower limit can still be kept, upwards in the mirrored cases, and not at all otherwise; then the acceleration is inside its limits and the velocity at its limit, or as near as can be |
| Brake.BrakeProfile.Finalize | project/applications/ruckig/brake.hpp:39-58 | Duration, recorded states and resulting state are those of the two brake steps |
| Brake.BrakeProfile.BrakeAndFinalize | project/applications/ruckig/calculator_target.hpp:254-281 | Hands on the state the brake leads to: an acceleration inside the limits, a velocity brought down to its limit where that was called for, and the same state where nothing was |
| Trajectory.UpperBound | project/applications/ruckig/trajectory.hpp:130-131 | The segment that a time falls into |
| Trajectory.AtTime | project/applications/ruckig/trajectory.hpp:123-137 | The state of the motion at that time, past the end too |
| Trajectory.SegmentBelow | project/applications/ruckig/profile.hpp:249-254 | What the check knows about the ends of a segment and the sign change inside it bounds the velocity all through the segment, up to eps/(2 jerk) |
| Trajectory.LimitsHoldAtAllTimes | project/applications/ruckig/profile.hpp:173-270 | For the instances that write no acceleration: acceptance means that at every real time the acceleration is within limits, and from the end of the third segment the velocity is, up to the stated tolerances |
| Trajectory.WrittenAnyway | project/applications/ruckig/profile.hpp:224-247 | An instance that writes accelerations has accepted just as the one that writes none does, if they were there anyway, so that all that holds of the latter holds of it |
| Motion.AxisState | project/applications/ruckig/trajectory.hpp:81-137 | The state of brake or profile that a time falls into |
| Motion.StateToIntegrateFrom | project/applications/ruckig/trajectory.hpp:61-139 | Every axis is sampled at its own state; from the end of the trajectory on each goes on from its last knot without jerk |
| Motion.BrakeAndCheck | project/applications/ruckig/calculator_target.hpp:254-288 | The profile starts exactly where the brake ends, with what braking achieves, and is accepted exactly if the third-order conditions hold from there |
| Motion.WholeMotion | project/applications/ruckig/trajectory.hpp:61-139 | Any two sampled states, wherever in brake or profile, are connected by a motion that takes exactly the time between them under bounded jerk: position, velocity and acceleration never jump |
| Motion.AccelerationNeverJumps | project/applications/ruckig/trajectory.hpp:61-139 | Between any two times the acceleration changes by at most jerk times time |
| Motion.StartsAtTheStart | project/applications/ruckig/trajectory.hpp:85-98 | The sample at time zero is the state that was given |
| Motion.EndsOnTarget | project/applications/ruckig/trajectory.hpp:123-128 | The sample at the end of the axis is on target within the tolerances |
| Motion.AccelerationAtAllTimes | project/applications/ruckig/brake.hpp:39-58 | While braking the acceleration only moves from where it was to inside the limits, and from then on it keeps them at every real time |
| Motion.FromTheStart | project/applications/ruckig/trajectory.hpp:61-139 | Every sampled state is reached from the start state in exactly its time under bounded jerk |
| Control.Output.Advance | project/applications/ruckig/ruckig.hpp:241-244 | One step on: the time, the states and jerks of all axes at it, and whether the section changed forwards |
| Control.Ruckig.Update | project/applications/ruckig/ruckig.hpp:216-258 | A new input starts a trajectory, or fails and keeps time and input; the input left by the last cycle goes one step on; finished exactly past the duration |
| Control.ControlLoop | project/applications/ruckig/ruckig.hpp:216-258 | With every set point handed back, any number of cycles cost one calculation, the set points are the samples one step apart, and the trajectory is finished exactly from the first sample past its end |
| Control.WithoutFeedback | project/applications/ruckig/ruckig.hpp:229-251 | Without handing them back every cycle calculates anew and yields the first set point again |
| Control.SetPointsFollow | project/applications/ruckig/ruckig.hpp:241-251 | From the given state on, each set point is reached from the one before in one step of time within the axis' jerk |
| PhaseSynchronization.FindScale | project/applications/ruckig/calculator_target.hpp:50-86 | The first axis taking part that moves or is to move, by the first vector in which it does; none only if all stand still |
| PhaseSynchronization.IsInputCollinear | project/applications/ruckig/calculator_target.hpp:44-121 | Measured by that one scale, yes exactly for collinear inputs; the controls are the limiting one in proportion to the scale |
| PhaseSynchronization.LineFoundExactly | project/applications/ruckig/calculator_target.hpp:88-115 | Where all that counts lies on one line, the test says so exactly if it is fair to every axis, which is a condition on distances that do not count |
| PhaseSynchronization.FoundIsOnLine | project/applications/ruckig/calculator_target.hpp:88-115 | What the test passes is on one line |
| PhaseSynchronization.AnyLineIsFound | project/applications/ruckig/calculator_target.hpp:88-115 | Inputs whose distances lie on the line even where they do not count always pass |
| PhaseSynchronization.IdleDistanceSpoils | project/applications/ruckig/calculator_target.hpp:44-115 | Two calls that say no although all that counts lies on one line, the first moving axis being controlled by velocity in one and by position in the other |
| PhaseSynchronization.PhaseProfile | project/applications/ruckig/calculator_target.hpp:405-447 | The times and pattern of the limiting axis under the control of the axis itself, found exactly if that control is within its jerk up to the tolerance and the check accepts |
| PhaseSynchronization.StraightLine | project/applications/ruckig/calculator_target.hpp:401-448 | Copied times with a control and start in proportion give a motion in proportion at every time |
| PhaseSynchronization.PhaseMotion | project/applications/ruckig/calculator_target.hpp:396-452 | For a collinear input every synchronised axis stays on one straight line with the limiting axis at every time, and misses its target in the same proportion |
| PhaseAcceptance.PhaseAcceptedExactly | project/applications/ruckig/calculator_target.hpp:396-452 | For a collinear input the check accepts the profile of an axis exactly if the accepted plan of the limiting axis, times the ratio of the two, misses its target by little enough and keeps the limits of the axis |
| PhaseAcceptance.PhaseSucceeds | project/applications/ruckig/calculator_target.hpp:396-452 | It does if the limits of the axis are at least the proportion of those of the limiting axis and the plan is on target in proportion, for an axis that moves less, or for any if the plan needs no tolerance |
| Quartics.SomeLargeRoot | project/applications/ruckig/roots.hpp:223-239 | The resolvent always has a root not below twice the root of d |
| Quartics.GreatestIsLarge | project/applications/ruckig/roots.hpp:230-243 | The root of greatest absolute value makes the first discriminant non-negative, for all coefficients |
| Quartics.DistinctFactors | project/applications/ruckig/roots.hpp:254-260 | The computed coefficients factor the quartic exactly when y^2 > 4d |
| Quartics.EqualConstants | project/applications/ruckig/roots.hpp:244-253 | When y^2 = 4d the resolvent forces ay = 2c, which the formulas for equal constant terms rely on |
| Quartics.ComplexFactors | project/applications/ruckig/roots.hpp:250-252 | When the root taken for the linear terms does not exist, the quartic has no real root |
| Quartics.PositiveSet.InsertQuadraticRoots | project/applications/ruckig/roots.hpp:264-280 | Adds exactly the non-negative real roots of a quadratic |
| Quartics.SolveQuartMonic | project/applications/ruckig/roots.hpp:198-283 | The returned set is exactly the set of non-negative real roots, for all coefficients and every branch |
| Newton.SumIsHorner | project/applications/ruckig/roots.hpp:305-312 | Summing powers from the lowest up gives the value of Horner's scheme |
| Newton.PolyEval | project/applications/ruckig/roots.hpp:293-315 | The loops compute the polynomial's value away from the tiny-x shortcut, and the constant coefficient there |
| Newton.DerivativeIsChordAtOnePoint | project/applications/ruckig/roots.hpp:319-325 | The coefficients computed are those of the derivative: the limit of the slopes of chords |
| Newton.PolyMonicDerivative | project/applications/ruckig/roots.hpp:328-335 | The result is monic and a constant multiple of the derivative |
| Newton.RemainderBound | project/applications/ruckig/roots.hpp:293-325 | A bound for the distance of a polynomial from its tangents, computed from its coefficients |
| SafeNewton.ShrinkInterval | project/applications/ruckig/roots.hpp:343-395 | The final bracket lies inside the original one with a change of sign and the result between its ends; stopping by bisection means that it is shorter than twice the tolerance, by Newton that the last step was shorter than the tolerance; the result fails to be a number only at a common zero of the polynomial and its derivative. Otherwise 128 steps have been taken, none short enough to stop, and that never happens in a bracket that is short or over which the polynomial is nearly straight |
| SafeNewton.StepSizes | project/applications/ruckig/roots.hpp:364-394 | A bisection halves the bracket; a Newton step stays in it and is at most half the step before the last |
| SafeNewton.StepsLeft | project/applications/ruckig/roots.hpp:363-395 | Every run in a bracket of at most 2^n times the tolerance takes at most 2n + n(n + 1)/2 steps, whatever the polynomial, so that 2^13 times is short enough |
| SafeNewton.StraightIsEnough | project/applications/ruckig/roots.hpp:363-395 | If the slope at one end is at least four times the width of the bracket times the curvature, a run takes at most one step for each halving of the width down to the tolerance |
| SafeNewton.FindsTheZero | project/applications/ruckig/roots.hpp:343-395 | And what is then found is within the tolerance of every zero in the bracket, of which there is one at most |
| Waypoints.Placed | project/applications/ruckig/ruckig.hpp:140-142 | The parameters that put one coordinate within the threshold are exactly the interval computed |
| Waypoints.PassesTest | project/applications/ruckig/ruckig.hpp:136-151 | The loop over the coordinates decides as the arithmetic of infinities and of results that are not numbers makes it decide |
| Waypoints.JudgedRightlyExactly | project/applications/ruckig/ruckig.hpp:136-151 | It decides for every waypoint whether one common parameter in [0,1] puts all coordinates within their thresholds, exactly if the line extends in every coordinate |
| Waypoints.PassesIsCovered | project/applications/ruckig/ruckig.hpp:136-151 | For such a line the test passes exactly what is covered |
| Waypoints.CoveredPasses | project/applications/ruckig/ruckig.hpp:136-151 | For any line and thresholds that are not negative it passes whatever is covered |
| Waypoints.FarWaypointPasses | project/applications/ruckig/ruckig.hpp:140-147 | A waypoint far off a line without extent in one coordinate that passes |
| Waypoints.FilterIntermediatePositions | project/applications/ruckig/ruckig.hpp:113-172 | The result is an ordered selection; every dropped waypoint passes the test against its nearest kept neighbours, ends included, and is covered if that line extends in every coordinate; no kept one could have been dropped by extending its line by one |
| Crc.Crc8Table | project/applications/CRC_Table.c:179-189 | The table lookup equals bitwise division by x^8+x^5+x^4+1 for every message |
| Crc.Crc16Table | project/applications/CRC_Table.c:191-200 | The table lookup equals bitwise division by x^16+x^12+x^5+1 for every message |
| CrcOrder.Order | project/applications/CRC_Table.c:191-200 | The powers of x modulo that polynomial repeat only after 32767 |
| CrcGuarantees.HammingDistanceFour | project/applications/CRC_Table.c:191-200 | Two different valid words of equal length, up to 4093 payload bytes, differ in at least four bits |
| CrcGuarantees.BurstOfSixteen | project/applications/CRC_Table.c:191-200 | Two valid words that agree outside sixteen consecutive bits are equal; two adjacent payload bytes are such a window |
| CrcGuarantees.OneByteChanged | project/applications/CRC_Table.c:179-189 | Changing any one byte of a message changes its CRC-8 |
| FdiFrames.FrameDelivered | project/applications/FDILink.c:191-284 | A frame fed to a waiting receiver is delivered once, at its last byte and not before |
| FdiFrames.NoiseIgnored | project/applications/FDILink.c:201-213 | Bytes other than the start byte leave a waiting receiver waiting |
| FdiFrames.RoundTrip | project/applications/FDILink.c:191-284 | Any number of frames with idle bytes between them are delivered exactly once each and in order |
| FdiFrames.Soundness | project/applications/FDILink.c:191-284 | On any byte stream at all, the deliveries are disjoint valid frames of that stream, in order |
| FdiCorruption.PayloadErrorsDetected | project/applications/FDILink.c:270-275 | Two different accepted frames with the same header differ in at least four payload and checksum bits |
| FdiCorruption.HeaderErrorsDetected | project/applications/FDILink.c:228-232 | Changing any one of the five header bytes makes the header fail |
| FdiLink.Status.Insert | project/applications/FDILink.c:163-182 | The buffer, its index, the bytes left and the state after one byte, the error branches included |
| FdiLink.Status.RunningData | project/applications/FDILink.c:191-284 | In every state one byte does exactly what the meaning of the stream says; a corrupted state number is answered by -3 and a fresh start; a byte that finds the receiver waiting resets the transmit number |
| FdiLink.Status.Receive | project/applications/FDILink.c:349-358 | One byte delivers what the stream means, and the result is narrowed to a byte |
| FdiLink.Status.Recv | project/applications/FDILink.c:373-380 | A buffer of bytes delivers exactly what the stream means, appended to what came before |
| FdiLink.Status.Pack | project/applications/FDILink.c:326-347 | The buffer holds exactly the frame, with the number of frames before it modulo 256 for its serial number, and its remainder is untouched |
| FdiLink.Status.Send | project/applications/FDILink.c:299-324 | The bytes handed to the serial port are exactly the frame, with the serial number of the same count |
| FdiLink.FrameOfIsFrame | project/applications/FDILink.c:299-324 | What the senders write is a valid frame that carries the given type and payload |
| FdiLink.SentIsReceived | project/applications/FDILink.c:299-347 | Everything packed or sent, back to back, is delivered exactly once each and in order |
| FdiLink.TrailerAnswers | project/applications/FDILink.c:326-347 | The three bytes too many of an empty packed frame are answered by two errors and a 0 |
| FlowCheck.ReverseLoop8 | project/applications/flow/check.c:47-54 | The loop reverses the bits of a byte |
| FlowCheck.ReverseLoop16 | project/applications/flow/check.c:56-63 | The loop reverses the bits of a word |
| FlowCheck.InitTable | project/applications/flow/check.c:65-83 | Every entry of the table the loops build is the division of its index |
| FlowCheck.ReverseDivision | project/applications/flow/check.c:111-131 | Reversing the register turns the unreflected division into the reflected one, for every message |
| FlowCheck.SeedsInUse | project/applications/flow/check.c:5-32 | The seed bytes of the three messages received are 175, 138 and 85, which the MAVLink common message set gives OPTICAL_FLOW, OPTICAL_FLOW_RAD and DISTANCE_SENSOR |
| FlowCheck.HexinCrc16 | project/applications/flow/check.c:91-134 | Equals the bitwise low-bit-first CRC of the message with its seed byte, which is written into the last place of the buffer; the initial value is not reversed first, because the field that asks for it stays 0 |
| FlowCheck.Crc8DvbS2 | project/applications/flow/check.c:139-150 | Eight division steps by 0xD5, high bit first |
| FlowCheck.Crc8 | project/applications/flow/check.c:152-159 | Equals the bitwise CRC-8 of section 5.1.4 of ETSI EN 302 307 for every message |
| FlowFrames.ReportIsViable | project/applications/flow/flow_decode.c:108-246 | A string of the right length is a report exactly if each byte fits after the ones before it |
| FlowFrames.ReportExists | project/applications/flow/flow_decode.c:108-246 | Any two payloads of the right lengths, with any sequence numbers, make a report |
| FlowFrames.ReportIsMade | project/applications/flow/flow_decode.c:327-469 | Every report is made of two such payloads |
| FlowFrames.ReportAccepted | project/applications/flow/flow_decode.c:108-246 | A report that starts while the parser waits is accepted exactly at its last byte |
| FlowFrames.AcceptedExactly | project/applications/flow/flow_decode.c:327-469 | On any stream: accepted exactly if the last bytes are one contiguous report with both checksums valid that began while the parser was waiting |
| FlowFrames.StrayStartHidesReport | project/applications/flow/flow_decode.c:339-351 | A start byte right before a report makes the parser miss it |
| FlowDecode.MspParser.ParseChar | project/applications/flow/flow_decode.c:108-246 | Each byte moves the parser as the meaning of the stream says; on acceptance both payload structs hold the payloads |
| FlowDecode.MavlinkParser.ParseChar | project/applications/flow/flow_decode.c:327-615 | The same for both MAVLink variants |
| FlowDecode.ListenMsp | project/applications/flow/flow_decode.c:108-246 | Over any stream the parser reports success exactly at the bytes where a report is complete |
| FlowDecode.ListenMavlink | project/applications/flow/flow_decode.c:327-615 | The same for both MAVLink variants |
| Atomic.Cell.CompareExchange | project/rt-thread/include/rtatomic.h:183-201 | The value is exchanged exactly on a match, and the expectation becomes what was found |
| Atomic.Cell.DecAndTest | project/rt-thread/include/rtatomic.h:204-207 | True exactly if the counter was zero before, so that it has wrapped around; the answer is the one promised, whether the counter has become zero, exactly if it was above 1 as an unsigned word |
| Atomic.DecAndTestMisses | project/rt-thread/include/rtatomic.h:204-207 | A counter that becomes zero is not reported, and one that wraps around is |
| Atomic.Cell.FetchAddUnless | project/rt-thread/include/rtatomic.h:209-221 | Without interference the loop has the effect of one call and returns what it found |
| Atomic.Cell.AddUnless | project/rt-thread/include/rtatomic.h:223-226 | Reports whether it added |
| Atomic.Cell.IncNotZero | project/rt-thread/include/rtatomic.h:228-231 | Increments exactly a value that is not zero, and says so |
| Atomic.RunLinearized | project/rt-thread/include/rtatomic.h:209-221 | In every interleaving of any number of callers the calls take effect one at a time, each finding what the ones before it left |
| Atomic.FinishedCall | project/rt-thread/include/rtatomic.h:209-221 | A finished call took effect exactly once and returned the value it found then |
| Atomic.RealTimeOrder | project/rt-thread/include/rtatomic.h:209-221 | A call finished before another began took effect before it |
| Atomic.GuardedStep | project/rt-thread/include/rtatomic.h:213-218 | No call changes the value while it equals its guard |
| Atomic.ZeroStays | project/rt-thread/include/rtatomic.h:228-231 | Once the value is the common guard it stays: a zero is never revived |
| Atomic.RunAccounted | project/rt-thread/include/rtatomic.h:209-226 | The value is always the initial one plus the sum of the successful additions; a call fails at most as often as others succeed |
| Atomic.BoundedRetries | project/rt-thread/include/rtatomic.h:213-218 | With so many calls in the system, each is finished after more than twice that number of its own steps, whatever the others do |
| KernelLists.InsertAfter | project/rt-thread/include/rtservice.h:60-67 | The ring becomes the ring with the node inserted; only three nodes are written |
| KernelLists.InsertBefore | project/rt-thread/include/rtservice.h:75-82 | The node becomes the end of the ring that starts at the list |
| KernelLists.Remove | project/rt-thread/include/rtservice.h:88-94 | The rest closes up and the node is a ring by itself |
| KernelLists.RotatedRing | project/rt-thread/include/rtservice.h:60-94 | A ring may be read from any of its nodes |
| KernelLists.InsertAndRemove | project/rt-thread/include/rtservice.h:60-94 | Removing what was inserted restores every ring |
| KernelLists.Move | project/rt-thread/include/rtservice.h:75-94 | Moving a node from one ring to another leaves both whole |
| KernelLists.IsEmpty | project/rt-thread/include/rtservice.h:100-103 | True exactly for a ring of one |
| KernelLists.Len | project/rt-thread/include/rtservice.h:109-120 | The walk terminates with the number of other nodes |
| KernelLists.Append | project/rt-thread/include/rtservice.h:196-206 | The chain with the node at its end |
| KernelLists.Insert | project/rt-thread/include/rtservice.h:208-212 | The chain with the node behind its head |
| KernelLists.SListLen | project/rt-thread/include/rtservice.h:214-225 | The number of nodes behind the head |
| KernelLists.SListRemove | project/rt-thread/include/rtservice.h:227-237 | The chain without the node; an absent node, or the head, changes nothing |
| PerfClock.AddedKeepsCycles | project/packages/perf_counter-v2.2.4.1/perf_counter.c:212-226 | Units times count plus residue grows by exactly one period, and the residue stays below one unit |
| PerfClock.ReadingIsFloor | project/packages/perf_counter-v2.2.4.1/perf_counter.c:421-441 | A reading is the whole number of units in all cycles, counted or not |
| PerfClock.PerfCounter.Handle | project/packages/perf_counter-v2.2.4.1/perf_counter.c:207-228 | Keeps cycles, milliseconds and microseconds in step with the cycles that have passed, and never lowers what the registers tell |
| PerfClock.PerfCounter.Tick | project/packages/perf_counter-v2.2.4.1/perf_counter.c:269-300 | One cycle; what the registers tell falls exactly if a pending wrap is at the threshold or an unhandled one is at zero |
| PerfClock.PerfCounter.ExactlyWhen | project/packages/perf_counter-v2.2.4.1/perf_counter.c:269-300 | The registers tell the true time exactly outside two stated conditions |
| PerfClock.PerfCounter.GetSystemTicks | project/packages/perf_counter-v2.2.4.1/perf_counter.c:365-389 | Never below an earlier reading, and exact whenever the registers are and no earlier reading was above the true time |
| PerfClock.PerfCounter.GetSystemMs | project/packages/perf_counter-v2.2.4.1/perf_counter.c:421-430 | The floor of all cycles over the unit |
| PerfClock.PerfCounter.GetSystemUs | project/packages/perf_counter-v2.2.4.1/perf_counter.c:432-441 | The same in microseconds |
| PerfClock.PerfCounter.HandleBetweenReadings | project/packages/perf_counter-v2.2.4.1/perf_counter.c:269-300 | Servicing a pending wrap leaves a reading unchanged exactly if the timer is at or above the threshold, and else adds a period |
| PerfClock.TickBetweenReadings | project/packages/perf_counter-v2.2.4.1/perf_counter.c:421-430 | From one cycle to the next the milliseconds go back exactly if the registers do and cross a unit |
| PerfClock.MillisecondsCanGoBack | project/packages/perf_counter-v2.2.4.1/perf_counter.c:421-430 | A run of the clock on which a pending wrap at timer values 16 and 15 makes the millisecond reading go from 1 to 0 |
| TaskCycles.Task.Register | project/packages/perf_counter-v2.2.4.1/perf_counter.c:607-643 | The list holds the agent with its account behind the root, stays linked both ways, and counts from now on |
| TaskCycles.Agent.Unregister | project/packages/perf_counter-v2.2.4.1/perf_counter.c:645-678 | The list holds the others, linked both ways; an agent in no list changes nothing |
| TaskCycles.Task.SwitchIn | project/packages/perf_counter-v2.2.4.1/perf_counter.c:681-701 | Every account counts one activation for each of its shares in the task, in sixteen bits |
| TaskCycles.Task.SwitchOut | project/packages/perf_counter-v2.2.4.1/perf_counter.c:703-724 | Every account is credited with the slice once as the task's own, and once for each agent that names it if it is enabled |
| TaskAccounts.BehindExactly | project/packages/perf_counter-v2.2.4.1/perf_counter.c:607-678 | After any history, the list of a task holds exactly the agents registered there and not unregistered since |
| TaskAccounts.OnExactly | project/packages/perf_counter-v2.2.4.1/perf_counter.c:556-604 | An account is enabled exactly if it was last prepared or enabled, not disabled |
| TaskAccounts.DueExactly | project/packages/perf_counter-v2.2.4.1/perf_counter.c:703-724 | An account is due a slice once if the task is its own, and once for each live registration behind the task if it is enabled |
| TaskAccounts.AtFirst | project/packages/perf_counter-v2.2.4.1/perf_counter.c:556-604 | Empty lists and accounts in zeroed memory agree with the empty history, so that every run starts from there |
| TaskAccounts.Perform | project/packages/perf_counter-v2.2.4.1/perf_counter.c:556-724 | One event: lists, clocks and accounts go on agreeing with the history |
| TaskAccounts.Run | project/packages/perf_counter-v2.2.4.1/perf_counter.c:556-724 | Over every run of preparing, enabling, disabling, registering, unregistering and switching, every total is the sum of the slices that the events make due, and every list is linked both ways |
| Encoder.UnwrappedExactly | project/applications/motor_dj_rm_driver.c:582-591 | A step is unwrapped correctly exactly if it is shorter than half a turn, or half a turn that does not pass zero |
| Encoder.MotorMeasure.Receive | project/applications/motor_dj_rm_driver.c:571-596 | Calibration ends after fifty messages for good; afterwards turns and angle stay at the true displacement exactly if the step unwraps, and the total angle is that displacement less one count per turn |
| Encoder.MotorMeasure.BackToZero | project/applications/motor_dj_rm_driver.c:552-556 | The present position becomes the origin |
| Encoder.Follow | project/applications/motor_dj_rm_driver.c:571-596 | Over any run of unwrappable messages the total angle is the displacement less the turns; it is right exactly if the last position is in the same turn as the origin |
| Encoder.OneTurnForwards | project/applications/motor_dj_rm_driver.c:571-596 | A run over one turn whose total angle is one count short |
| Encoder.GetByCanId | project/applications/motor_dj_rm_driver.c:203-219 | Given more turns than there are entries: found exactly if the id is in the sorted table, and then at its index; past the table exactly for an id below the first one of at most 127; still looking exactly in the endless cases |
| Encoder.SearchOutcome | project/applications/motor_dj_rm_driver.c:203-219 | Found exactly if the id is in the sorted table; past the table exactly for an id below the first one of at most 127; still looking exactly in the endless cases |
| Encoder.SearchNeverEnds | project/applications/motor_dj_rm_driver.c:203-219 | In those cases no number of turns ends the search |

## Left out

Ruckig:

- The third-order position solvers (`position_third_step1.cpp`, `position_third_step2.cpp`), the first-order ones and the
  second-order velocity ones: numerical root searches or single divisions with little structure of their own.
- SecondOrderStep1.PositionSecondOrderStep1.GetProfile: for limits that are not zero and a start inside them, where braking puts it. What
  lies behind `valid_profiles` is modelled as further slots, so that the search can be followed to its end.
- VelocityThirdStep1.VelocityThirdOrderStep1.GetProfile: for a jerk limit that is not zero and a start inside the limits, with the same
  further slots.
- Synchronization.TargetCalculator.SortIndices: sorts by insertion where the source calls `std::sort`, so the order among equal times is one of
  the possible ones.
- Trajectory.LimitsHoldAtAllTimes: for the instances that overwrite an acceleration only where it has that value anyway (`WrittenAnyway`),
  since otherwise the states recorded are not those of the motion.
- Motion.StateToIntegrateFrom: trajectories with one section, which is what the library computes without its cloud client.
- Profiles.Profile.SetBoundary: of the brakes only the durations, which are all that the blocks use of them; `Motion` has the rest.
- Quartics.SolveQuartMonic: the resolvent solver is a parameter that returns the real roots; its trigonometric branch is not modelled.
  The set is not sorted, since only its elements matter.
- PhaseSynchronization.PhaseProfile: the third-order position check; the other checks of the same call differ only in their
  conditions, which `Patterns` describes.
- PhaseSynchronization.PhaseMotion: for axes controlled by position under a jerk limit that start without a brake and whose limiting axis takes
  part; with a brake the starts need not be in proportion, and only the check decides.
- Control.Ruckig.Update: the calculation is a parameter; input validation, intermediate waypoints and the time it takes are not modelled.
- Brakes of the second-order and velocity interfaces, position extrema.
- IEEE rounding, overflow and NaN: arithmetic is exact. Where the source relies on a NaN or an infinity failing every comparison, the
  model refuses explicitly. Tests against `DBL_EPSILON` that decide between formulas (in the quartic solver, for a target at rest,
  for standstill, for collinear inputs) are exact tests for zero; the ones that a claim is about are kept.

Protocols:

- UART, threads and semaphores; `FDI_ASSERT`; what `FDILink_Decode` does with a packet; the 32-bit checksum.
- The parsers of the sensors without a distance meter and the XOR-checked protocol.

Kernel and motors:

- PerfClock.PerfCounter.Handle: counts are unbounded integers; the source's 32-bit milliseconds and microseconds wrap. The timer is not
  reconfigured, and a second wrap before the first is handled is a precondition of `Tick`.
- TaskCycles.Task.Register: the agent must not be in a list already; the source would then tie the list into a loop.
- TaskCycles.Task.SwitchOut: time comes in as a parameter, totals are unbounded integers. The virtual counters of a task
  (`__start_task_cycle_counter`, `__stop_task_cycle_counter`) are not modelled.
- KernelLists.Len: the count is an unbounded natural number. The `for each` macros are not modelled.
- Encoder.GetByCanId: reading past the table is a result of its own instead of undefined behaviour, and the number of turns is
  a parameter, since the loop need not end.
- Speed, torque and float conversion in the motor callback, the other motor drivers, chassis kinematics, filters and servo drivers.
