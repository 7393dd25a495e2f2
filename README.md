# Elevator controller: stepper driver and SCAN scheduler

This Dafny project models the two parts of the ESP32 elevator firmware that hold its logic.

**The four-wire stepper driver (`StepperMotor`, stepper.dfy).** The `Stepper` class keeps
the fields of the C++ driver: `direction`, `stepDelay`, `numberOfSteps`, `stepNumber` and
`lastStepTime`.
- `setSpeed` clamps the speed to 16 rpm and computes the delay between steps by integer division.
- `step(n)` busy-waits on a microsecond clock. It advances an eight-phase counter `|n|` times,
  wrapping between 7 and 0.
- `stepMotor` maps a phase to a half-step coil pattern (a `bv4`; bit 3 is motor_pin_1). Any other
  index turns every coil off; `stop` uses index 10.

Three parts of the hardware are replaced:
- the GPIO writes are a ghost `trace` of patterns;
- `micros()` is a sequence of `esp_timer_get_time` readings, truncated to 32 bits;
- `now - last_step_time` is unsigned 32-bit subtraction.

The loop of `step` is the method `Pulse`. It is proved equal to the tail-recursive function
`Run`, and the lemmas about `Run` give the phase arithmetic, the emitted patterns and the timing
gate.

**The floor request table and scheduler (`Elevator`, elevator.dfy).** The class `Floors` holds:
- `currentFloor`;
- the eight-slot array `chosenFloorList`, whose power-up value requests floor 3.

The operations are:
- `ConvertChosenFloor`, the status byte sent over BLE;
- `OnWrite`, the BLE write handler;
- `DeleteChosenFloor`;
- `GetDestinationFloor`, the SCAN choice with `MAX_FLOOR = 4`;
- one iteration of the control loop of `MainTask::run` (`Tick`, and `Iterate` which also drives a
  `Stepper`).

The loop locals `currentDirection`, `isMoving` and `destinationFloor` are the fields of
`MainTask`. `elevatorDetected` is a parameter `sensor: int -> bool`. Each loop method is proved
against a function: `Select` for the scan, `Weighted` for the status byte and `TickSpec` for the
iteration. The properties are proved as lemmas about those functions.

Two behaviours of the firmware shape the model:
- `onWrite` does not range-check `value[0]` before indexing `chosenFloorList`, so `OnWrite`
  requires the written byte to be below 8.
- The upward scan of `getDestinationFloor` stops below `MAX_FLOOR` (4), not at the end of the
  table. With requests at floors 2 and 5 and the cabin at floor 3 going up, the result is
  floor 2 going down (`UpwardScanStopsBelowMaxFloor`).

## Model

| member | source | states |
|---|---|---|
| `StepperMotor.PhasePattern` | components/stepper_motor/Stepper.cpp:101-160 | an index gives a non-zero pattern exactly when it is a phase 0..7 (so index 10 of stop gives all off); even phases energise one coil, odd phases two |
| `StepperMotor.PatternRoundTrip` | components/stepper_motor/Stepper.cpp:103-152 | the table is one-to-one: reading the phase back from its pattern gives it again, and every table pattern comes from its phase |
| `StepperMotor.AdjacentPhasesDifferInOneCoil` | components/stepper_motor/Stepper.cpp:103-152 | cyclically adjacent phases, 7 to 0 included, differ in exactly one coil |
| `StepperMotor.OppositePhasesAreDisjoint` | components/stepper_motor/Stepper.cpp:103-152 | phases four apart share no energised coil |
| `StepperMotor.LevelsCountCoils` | components/stepper_motor/Stepper.cpp:105-158 | the four pin levels written add up to the number of energised coils of the pattern |
| `StepperMotor.HighPins` | components/stepper_motor/Stepper.cpp:105-158 | one pin is driven high in an even phase, two in an odd phase, none for an index outside the table |
| `StepperMotor.PatternLevels` | components/stepper_motor/Stepper.cpp:105-158 | for each index and each of motor_pin_1 .. motor_pin_4, the pattern's level is the one its switch case writes (`PinLevels`), the default case writing 0 to all four |
| `StepperMotor.StepDelay` | components/stepper_motor/Stepper.cpp:36-43 | the delay is non-negative, at most one minute over the steps per revolution, and times the clamped speed stays within that quotient |
| `StepperMotor.StepDelayNonIncreasing` | components/stepper_motor/Stepper.cpp:38-41 | a faster requested speed never gives a longer delay |
| `StepperMotor.StepDelayClamped` | components/stepper_motor/Stepper.cpp:38-40 | every speed of 16 or more gives the delay of 16 |
| `StepperMotor.ElevatorMotorDelay` | components/stepper_motor/Stepper.cpp:41 | 4095 steps per revolution at 10 rpm gives a delay of 1465 microseconds |
| `StepperMotor.Micros` | components/stepper_motor/Stepper.cpp:3-6 | the clock reading truncated to an unsigned long lies in [0, 2^32) |
| `StepperMotor.Elapsed` | components/stepper_motor/Stepper.cpp:67 | unsigned subtraction: the plain difference when the clock has not wrapped, the difference plus 2^32 when it has |
| `StepperMotor.NextPhase` | components/stepper_motor/Stepper.cpp:73-84 | one phase update stays in [0, 8) and equals the phase plus or minus one, modulo 8 (Euclidean) |
| `StepperMotor.NewDirection` | components/stepper_motor/Stepper.cpp:54-59 | definition: 1 for a positive count, 0 for a negative one, the old direction for 0; stated as the contract of `Stepper.Step` |
| `StepperMotor.Run` | components/stepper_motor/Stepper.cpp:63-90 | a completed busy-wait ends with the phase in [0, 8) and the timestamp in the unsigned long range |
| `StepperMotor.StepBurst` | components/stepper_motor/Stepper.cpp:63-90 | definition: the busy-wait of one `step` call, `Run` from empty emitted patterns and stamps; its properties are `StepBurstSpec`, `StepPhase` and `StepThenBack` |
| `StepperMotor.RunShape` | components/stepper_motor/Stepper.cpp:63-90 | a completed busy-wait appends exactly the number of steps asked for to the patterns and timestamps, keeps what came before, and consumes at least one reading per step |
| `StepperMotor.RunPhase` | components/stepper_motor/Stepper.cpp:63-90 | after the busy-wait the phase has moved by the signed step count, modulo 8 |
| `StepperMotor.RunEmits` | components/stepper_motor/Stepper.cpp:86-88 | the j-th pattern emitted is that of the phase reached by j + 1 moves, the freshly updated step number |
| `StepperMotor.RunGate` | components/stepper_motor/Stepper.cpp:65-70 | each stamp is at least step_delay (unsigned) after the one before it, the first after the starting last_step_time, and last_step_time ends as the last stamp |
| `StepperMotor.RunStampsAreReadings` | components/stepper_motor/Stepper.cpp:65-70 | every stamp is the truncated clock reading of one of the burst's polls, the earlier stamps are kept, and after at least one advance last_step_time is the reading of the final poll |
| `StepperMotor.FailedPollChangesNothing` | components/stepper_motor/Stepper.cpp:65-70 | a reading less than step_delay after last_step_time leaves phase, timestamp, patterns and stamps as they were, and the wait goes on from the next reading |
| `StepperMotor.RunCompletes` | components/stepper_motor/Stepper.cpp:63-90 | when every reading passes the gate, the busy-wait completes after exactly as many readings as steps |
| `StepperMotor.StepBurstSpec` | components/stepper_motor/Stepper.cpp:49-91 | for a whole call: phase moved by the signed count modulo 8; exactly that many patterns, each that of the phase just reached; exactly that many stamps, each a clock reading of one of the call's polls and gated by step_delay; last_step_time ends as the reading of the final poll, or unchanged for no step |
| `StepperMotor.StepPhase` | components/stepper_motor/Stepper.cpp:51-90 | when step(n) returns, the phase is (old phase + n) mod 8, whatever the previous direction |
| `StepperMotor.StepThenBack` | components/stepper_motor/Stepper.cpp:51-90 | step(k) followed by step(-k) restores the phase, whatever the clock did |
| `StepperMotor.Stepper.constructor` | components/stepper_motor/Stepper.cpp:12-31 | step number, direction and last step time start at 0, nothing emitted, step_delay not yet set |
| `StepperMotor.Stepper.SetSpeed` | components/stepper_motor/Stepper.cpp:36-43 | step_delay becomes StepDelay(number of steps, requested speed); only step_delay changes |
| `StepperMotor.Stepper.StepMotor` | components/stepper_motor/Stepper.cpp:101-160 | exactly the pattern of the index is written to the coils, its four pin levels are the row of `PinLevels` for the index (the all-zero row for the default case), one, two or no pins are high as `HighPins` says, and no field changes |
| `StepperMotor.Stepper.Stop` | components/stepper_motor/Stepper.cpp:93-96 | the all-off pattern is written and no field of the driver changes |
| `StepperMotor.Stepper.Advance` | components/stepper_motor/Stepper.cpp:67-88 | a passing poll records the time, moves the phase one place in the current direction and writes the new phase's pattern |
| `StepperMotor.Stepper.Step` | components/stepper_motor/Stepper.cpp:49-91 | direction becomes 1 for n > 0 and 0 for n < 0 and is kept for 0; phase, timestamp, emitted patterns and readings used are those of the busy-wait `StepBurst` |
| `StepperMotor.Stepper.Pulse` | components/stepper_motor/Stepper.cpp:63-90 | the polling loop ends in the state computed by `StepBurst` from the state at entry |
| `Elevator.WeightedRange` | main/elevator.cpp:34-41 | a table of 0/1 slots packs into a number below 2 to the number of slots |
| `Elevator.WeightedBit` | main/elevator.cpp:34-41 | bit i of the packed table is slot i, floor 0 the least significant |
| `Elevator.WeightedFrom` | main/elevator.cpp:34-41 | definition: slots k onward read as binary digits, least significant first; properties in `WeightedRange`, `WeightedBit`, `UnpackWeighted` |
| `Elevator.Weighted` | main/elevator.cpp:34-41 | definition: the whole table as a binary number, slot 0 least significant; the specification of `ConvertChosenFloor` |
| `Elevator.UnpackWeighted` | main/elevator.cpp:34-41 | unpacking the status byte gives the table back |
| `Elevator.WeightedUpdate` | main/elevator.cpp:95-97 | writing one slot changes only that bit of the status byte |
| `Elevator.StatusByte` | main/elevator.cpp:34-41 | an eight-slot table of flags packs into one byte in [0, 255] whose bit i is slot i and which decodes back to the table |
| `Elevator.ConvertChosenFloor` | main/elevator.cpp:34-41 | the loop returns the sum of slot i times 2^i; it is a byte and bit i is slot i |
| `Elevator.FirstRequested` | main/elevator.cpp:69-74 | the lowest requested slot in a range, or -1 exactly when none is requested there |
| `Elevator.LastRequested` | main/elevator.cpp:81-86 | the highest requested slot in a range, or -1 exactly when none is requested there |
| `Elevator.Select` | main/elevator.cpp:66-93 | no request found gives -1 going up; a floor found is a requested slot of the table (the full choice is `SelectSpec`) |
| `Elevator.SelectSpec` | main/elevator.cpp:66-93 | going up with a request in (current, MAX_FLOOR): the lowest one, still going up; otherwise the highest request in [0, current], going down; with none either, -1 and going up, with no upward rescan after starting down |
| `Elevator.SelectValid` | main/elevator.cpp:66-93 | with the current floor in [0, MAX_FLOOR) the result is -1 or a requested floor in [0, MAX_FLOOR) |
| `Elevator.CurrentFloorOnlyOnTheWayDown` | main/elevator.cpp:69-86 | a request at the current floor is picked going down and passed over going up when there is a request above |
| `Elevator.UpwardScanStopsBelowMaxFloor` | main/elevator.cpp:69 | requests at 2 and 5 with the cabin at 3 going up give floor 2 going down |
| `Elevator.SensorPin` | main/elevator.cpp:99-114 | definition: floors 0, 1, 2, 3 read GPIO 23, 32, 35, 34 |
| `Elevator.ElevatorDetectedAsWritten` | main/elevator.cpp:99-118 | definition: the active-low read of the floor's pin, and of an unassigned pin for a floor outside 0..3; its consequence is `UnmappedSensorMovesFloorOutOfRange` |
| `Elevator.ElevatorDetected` | main/elevator.cpp:99-118 | the corrected sensor fires only at mapped floors and agrees with the code there |
| `Elevator.TickSpec` | main/elevator.cpp:139-183 | the table stays eight 0/1 slots, a pursued destination is a slot, the motor moves exactly when the controller is left moving, and on a stop the cabin's floor is the destination |
| `Elevator.DwellMillis` | main/elevator.cpp:145-183 | definition: the closing delay of 1000 ms when idle, 2500 ms on arrival, 10 ms after a burst |
| `Elevator.TickArrival` | main/elevator.cpp:152-163 | when the destination's sensor fires: stop, cabin at the destination, only its slot cleared, idle |
| `Elevator.TickProgress` | main/elevator.cpp:165-183 | on the way: destination and table kept, the floor moves to the adjacent one in the direction of travel exactly when its sensor fires, burst of +10 going up and -10 going down |
| `Elevator.TickIdle` | main/elevator.cpp:145-150 | with no floor to go to: idle facing up, no burst, nothing else changes |
| `Elevator.TableChangesOnlyOnArrival` | main/elevator.cpp:139-183 | an iteration changes the table only when it stops, and then clears only the slot of the floor reached |
| `Elevator.TickKeepsFloorInRange` | main/elevator.cpp:139-183 | with a sensor that fires only at floors below MAX_FLOOR, the cabin's floor and a pursued destination stay in [0, MAX_FLOOR) |
| `Elevator.CorrectedSensorKeepsFloorInRange` | main/elevator.cpp:99-118 | with unmapped floors read as absent, every iteration keeps the cabin in service |
| `Elevator.UnmappedSensorMovesFloorOutOfRange` | main/elevator.cpp:165-172 | as written, from floor 0 with floor 0 requested, the iteration queries floor -1 and can record the cabin there |
| `Elevator.PowerUpScenario` | main/elevator.cpp:134-183 | from power-up the controller drives up to floor 3, tracks floors 1 and 2, stops and clears the request at 3, then idles |
| `Elevator.Floors.constructor` | main/elevator.cpp:28-30 | the cabin starts at floor 0 with only floor 3 requested |
| `Elevator.OnWrite` | main/elevator.cpp:189-196 | a non-empty write sets the slot named by its first byte to 1 and leaves every other slot; an empty write changes nothing |
| `Elevator.MainTask.constructor` | main/elevator.cpp:134-136 | going up, not moving, destination 0 |
| `Elevator.MainTask.GetDestinationFloor` | main/elevator.cpp:66-93 | the two scanning loops return the floor and direction of `Select`, and change nothing |
| `Elevator.MainTask.DeleteChosenFloor` | main/elevator.cpp:95-97 | the slot becomes 0 and every other slot is unchanged |
| `Elevator.MainTask.Tick` | main/elevator.cpp:139-183 | the loop body's new globals, locals and motor command are those of `TickSpec` |
| `Elevator.MainTask.Iterate` | main/elevator.cpp:139-183 | as Tick, and the motor is stopped on arrival, moved by the burst's `StepBurst` otherwise, and left alone when idle; only the motor's direction, step number, last step time and coils change, its step delay is kept, and the closing delay is `DwellMillis` of the command (1000, 2500 or 10 ms) |
| `Elevator.StartMainTask` | main/elevator.cpp:127-136 | a 4095-step motor at 10 rpm (delay 1465) with its coils off, and the controller going up and not moving |

## Left out

- BLE: the server, service, characteristic and advertising set-up of `RunElevator`, and the connect and disconnect callbacks. These are library calls.
- MyNotifyTask: the periodic notification is I/O. Only the status byte it sends (`ConvertChosenFloor`) is modelled. The truncation of `currentFloor` to `uint8_t` is not modelled.
- Concurrency: the BLE callback, the notify task and the control task share unsynchronised globals. Each operation is modelled as atomic.
- Hardware: GPIO direction set-up and the sensor inputs' `setInput` are not modelled. Pin writes are the ghost coil trace, sensor reads are the `sensor` parameter, and `esp_timer_get_time` is the `clock` sequence.
- `delay` calls: the wait itself is not modelled; `Iterate` returns its length in milliseconds.
- Logging (`ESP_LOG*`) is not modelled.
- The unbounded `while(1)` loops: the model covers one iteration of the control loop and one call of each operation.
- StepperMotor.Stepper.Step: the busy-wait in the code polls forever until the clock lets every step through. The model reads a finite sequence of clock readings and requires it to contain enough passing readings. `RunCompletes` gives a sufficient condition.
- StepperMotor.Stepper.Step: `stepsToMove` must not be `INT_MIN`, whose `abs` overflows in C.
- StepperMotor.Stepper.SetSpeed: requires a positive speed. A speed of 0 divides by zero, and a negative one gives a wrapped `unsigned long` the model does not follow.
- StepperMotor.Stepper.constructor: requires a positive step count, since `setSpeed` divides by it.
- StepperMotor.Stepper.Step: requires `setSpeed` to have been called, since `step_delay` is uninitialised before.
- Elevator.OnWrite: requires the first byte of the written value to be below 8, because the code does not check its index. Whether the C++ `char` is signed is not modelled; it does not change which slot bytes 0..7 name.
- Elevator.MainTask.GetDestinationFloor and Elevator.MainTask.Tick: require the current floor in [-1, 8), which keeps the scans of `getDestinationFloor` inside the table. With the corrected sensor every iteration keeps the floor in [0, 4) (`CorrectedSensorKeepsFloorInRange`). A floor outside [-1, 8) arises only after the read of an unassigned pin described under "## Findings" (`UnmappedSensorMovesFloorOutOfRange`).
- The pin numbers of the motor (27, 26, 25, 33) are not modelled: the coil trace is indexed by motor pin 1 to 4.
- components/stepper_motor/example/stepper_test.cpp is a hardware demo and is not part of this model.

## Findings

| source | as written | input that shows it | evidently intended | confidence | as-written member | corrected member |
|---|---|---|---|---|---|---|
| main/elevator.cpp:99-118 | `pin` is assigned only for floors 0..3, yet the control loop also asks for `currentFloor - 1` and `currentFloor + 1`, so `elevatorDetected(-1)` reads an uninitialised pin | cabin at floor 0, floor 0 requested, sensor 0 not yet active: the iteration queries floor -1, and if the stray pin reads low the cabin is recorded at floor -1 | floors outside the sensor map read as "no cabin", which keeps the recorded floor in [0, MAX_FLOOR) | not executed | `Elevator.ElevatorDetectedAsWritten`, `Elevator.UnmappedSensorMovesFloorOutOfRange` | `Elevator.ElevatorDetected`, `Elevator.CorrectedSensorKeepsFloorInRange` |
