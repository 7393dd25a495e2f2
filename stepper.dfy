/**
 * The four-wire stepper driver of components/stepper_motor: a phase counter
 * that walks an eight-entry half-step coil table, gated by a microsecond clock.
 *
 * The GPIO writes of stepMotor are recorded in a ghost trace of coil patterns,
 * and the busy-wait on micros() reads its timestamps from an input sequence.
 */
module StepperMotor {

  datatype Option<T> = None | Some(value: T)

  /** The levels of the four coil outputs: bit 3 is motor_pin_1, bit 0 is motor_pin_4,
      so the table entry written "0011" is the value 3. */
  type Coils = bv4

  /** unsigned long on the ESP32 is 32 bits wide. */
  const ULongModulus: int := 0x1_0000_0000
  const MicrosPerMinute: int := 60 * 1000 * 1000
  /** setSpeed clamps the requested revolutions per minute to this value. */
  const MaxSpeed: int := 16
  /** The index stop() passes to stepMotor; it is outside the table, so all coils go off. */
  const StopIndex: int := 10
  const AllOff: Coils := 0

  // ---------------------------------------------------------------------------
  // The coil table (stepMotor)
  // ---------------------------------------------------------------------------

  /** Number of energised coils in a pattern. */
  function PopCount(p: Coils): nat {
    (if p & 8 != 0 then 1 else 0) + (if p & 4 != 0 then 1 else 0)
    + (if p & 2 != 0 then 1 else 0) + (if p & 1 != 0 then 1 else 0)
  }

  /** The level stepMotor writes to motor_pin_<pin>. */
  function Level(p: Coils, pin: int): (level: int)
    requires 1 <= pin <= 4
    ensures level == 0 || level == 1
  {
    if (p >> (4 - pin)) & 1 != 0 then 1 else 0
  }

  /** The levels stepMotor writes to motor_pin_1 .. motor_pin_4, case by case; the last
      row is the default case. */
  const PinLevels: seq<seq<int>> := [
    [0, 0, 0, 1], [0, 0, 1, 1], [0, 0, 1, 0], [0, 1, 1, 0],
    [0, 1, 0, 0], [1, 1, 0, 0], [1, 0, 0, 0], [1, 0, 0, 1],
    [0, 0, 0, 0]]

  /** The pattern of every index puts on each pin the level its switch case writes. */
  lemma PatternLevels(thisStep: int, pin: int)
    requires 1 <= pin <= 4
    ensures Level(PhasePattern(thisStep), pin) == PinLevels[if 0 <= thisStep < 8 then thisStep else 8][pin - 1]
  {
  }

  /** The levels written to the four pins add up to the number of energised coils. */
  lemma LevelsCountCoils(p: Coils)
    ensures Level(p, 1) + Level(p, 2) + Level(p, 3) + Level(p, 4) == PopCount(p)
  {
  }

  /** The pattern stepMotor(thisStep) puts on the four pins: the half-step table for
      phases 0..7, and every coil off for any other index. Even phases energise one
      coil, odd phases the two coils on either side. */
  function PhasePattern(thisStep: int): (p: Coils)
    ensures p != AllOff <==> 0 <= thisStep < 8
    ensures 0 <= thisStep < 8 ==> PopCount(p) == (if thisStep % 2 == 0 then 1 else 2)
  {
    match thisStep
    case 0 => 1   // 0001
    case 1 => 3   // 0011
    case 2 => 2   // 0010
    case 3 => 6   // 0110
    case 4 => 4   // 0100
    case 5 => 12  // 1100
    case 6 => 8   // 1000
    case 7 => 9   // 1001
    case _ => 0   // 0000
  }

  /** stepMotor drives one pin high in an even phase, two in an odd phase, and none for an
      index outside the table. */
  lemma HighPins(thisStep: int)
    ensures var p := PhasePattern(thisStep);
      Level(p, 1) + Level(p, 2) + Level(p, 3) + Level(p, 4)
      == if 0 <= thisStep < 8 then (if thisStep % 2 == 0 then 1 else 2) else 0
  {
    LevelsCountCoils(PhasePattern(thisStep));
  }

  /** The phase whose pattern is p, or -1 when p is not one of the eight table entries. */
  function PhaseOf(p: Coils): int {
    if p == 1 then 0
    else if p == 3 then 1
    else if p == 2 then 2
    else if p == 6 then 3
    else if p == 4 then 4
    else if p == 12 then 5
    else if p == 8 then 6
    else if p == 9 then 7
    else -1
  }

  /** The table is one-to-one on the phases: reading the phase back from its pattern gives it again. */
  lemma PatternRoundTrip(i: int, p: Coils)
    ensures 0 <= i < 8 ==> PhaseOf(PhasePattern(i)) == i
    ensures 0 <= PhaseOf(p) ==> PhaseOf(p) < 8 && PhasePattern(PhaseOf(p)) == p
  {
  }

  /** Cyclically adjacent phases, 7 back to 0 included, differ in exactly one coil,
      so every phase change switches a single output. */
  lemma AdjacentPhasesDifferInOneCoil(i: int)
    requires 0 <= i < 8
    ensures PopCount(PhasePattern(i) ^ PhasePattern((i + 1) % 8)) == 1
  {
  }

  /** Phases half a cycle apart never share an energised coil. */
  lemma OppositePhasesAreDisjoint(i: int)
    requires 0 <= i < 8
    ensures PhasePattern(i) & PhasePattern((i + 4) % 8) == AllOff
  {
  }

  // ---------------------------------------------------------------------------
  // Speed and timing
  // ---------------------------------------------------------------------------

  function Min(a: int, b: int): int { if a <= b then a else b }

  /** The step_delay setSpeed computes: a minute in microseconds, divided by the steps per
      revolution and by the clamped speed, both divisions truncating. */
  function StepDelay(numberOfSteps: int, speed: int): (delay: int)
    requires numberOfSteps > 0 && speed > 0
    ensures 0 <= delay <= MicrosPerMinute / numberOfSteps
    ensures delay * Min(speed, MaxSpeed) <= MicrosPerMinute / numberOfSteps
  {
    DivBound(MicrosPerMinute / numberOfSteps, Min(speed, MaxSpeed));
    MicrosPerMinute / numberOfSteps / Min(speed, MaxSpeed)
  }

  lemma MulMonotone(c: int, u: int, v: int)
    requires c >= 0 && u <= v
    ensures c * u <= c * v
  {
    assert c * v - c * u == c * (v - u);
  }

  lemma DivBound(q: int, d: int)
    requires q >= 0 && d > 0
    ensures 0 <= q / d <= q && (q / d) * d <= q
  {
    MulMonotone(q / d, 1, d);
  }

  lemma DivAntitone(q: int, a: int, b: int)
    requires q >= 0 && 0 < a <= b
    ensures q / b <= q / a
  {
    var x, y := q / b, q / a;
    assert x >= 0 && x * b <= q;
    MulMonotone(x, a, b);
    assert q - y * a < a;
    if x > y {
      MulMonotone(a, y + 1, x);
      assert false;
    }
  }

  /** A faster requested speed never gives a longer delay. */
  lemma {:induction false} StepDelayNonIncreasing(numberOfSteps: int, s1: int, s2: int)
    requires numberOfSteps > 0 && 0 < s1 <= s2
    ensures StepDelay(numberOfSteps, s2) <= StepDelay(numberOfSteps, s1)
  {
    DivAntitone(MicrosPerMinute / numberOfSteps, Min(s1, MaxSpeed), Min(s2, MaxSpeed));
  }

  /** Every speed from 16 upwards gives the delay of 16. */
  lemma StepDelayClamped(numberOfSteps: int, speed: int)
    requires numberOfSteps > 0 && speed >= MaxSpeed
    ensures StepDelay(numberOfSteps, speed) == StepDelay(numberOfSteps, MaxSpeed)
  {
  }

  /** The configuration MainTask::run uses: 4095 steps per revolution at 10 rpm. */
  lemma ElevatorMotorDelay()
    ensures StepDelay(4095, 10) == 1465
  {
  }

  /** micros(): the 64-bit esp_timer_get_time() value cast to a 32-bit unsigned long. */
  function Micros(t: int): (us: int)
    ensures 0 <= us < ULongModulus
  {
    t % ULongModulus
  }

  /** now - last_step_time computed on unsigned long: wraps when the clock has wrapped. */
  function Elapsed(now: int, last: int): (e: int)
    requires 0 <= now < ULongModulus && 0 <= last < ULongModulus
    ensures 0 <= e < ULongModulus
    ensures now >= last ==> e == now - last
    ensures now < last ==> e == now + ULongModulus - last
  {
    (now - last) % ULongModulus
  }

  // ---------------------------------------------------------------------------
  // The phase counter (step)
  // ---------------------------------------------------------------------------

  /** The direction step(stepsToMove) leaves behind: 1 forward, 0 backward, unchanged for 0. */
  function NewDirection(direction: int, stepsToMove: int): int {
    if stepsToMove > 0 then 1 else if stepsToMove < 0 then 0 else direction
  }

  function Abs(n: int): nat { if n < 0 then -n else n }

  /** The signed phase change of k moves in direction dir. */
  function Displacement(dir: int, k: int): int { if dir == 1 then k else -k }

  /** One phase update: increment with 7 wrapping to 0 when the direction is 1,
      otherwise decrement with 0 wrapping to 7. */
  function NextPhase(phase: int, dir: int): (next: int)
    requires 0 <= phase < 8
    ensures 0 <= next < 8
    ensures next == (phase + Displacement(dir, 1)) % 8
  {
    if dir == 1 then (if phase + 1 > 7 then 0 else phase + 1)
    else (if phase - 1 < 0 then 7 else phase - 1)
  }

  /** What a call of step does to the motor state: the final phase and timestamp, the
      patterns emitted and the times they were emitted at, and the index of the clock
      reading after the last one the busy-wait consumed. */
  datatype Burst = Burst(phase: int, last: int, emitted: seq<Coils>, stamps: seq<int>, polls: nat)

  /** The busy-wait of step from clock reading i on, with `left` advances still to make:
      each reading either passes the gate, advancing the phase and emitting its pattern,
      or is discarded. The patterns and stamps of the advances made so far are carried in
      `emitted` and `stamps`. None when the readings run out first (the real loop would
      keep polling). */
  function Run(phase: int, dir: int, last: int, delay: int, left: nat,
               clock: seq<int>, i: nat, emitted: seq<Coils>, stamps: seq<int>): (r: Option<Burst>)
    requires 0 <= phase < 8 && 0 <= last < ULongModulus && i <= |clock|
    decreases |clock| - i
    ensures r.Some? ==> 0 <= r.value.phase < 8 && 0 <= r.value.last < ULongModulus
  {
    if left == 0 then Some(Burst(phase, last, emitted, stamps, i))
    else if i == |clock| then None
    else
      var now := Micros(clock[i]);
      if Elapsed(now, last) >= delay then
        var next := NextPhase(phase, dir);
        Run(next, dir, now, delay, left - 1, clock, i + 1, emitted + [PhasePattern(next)], stamps + [now])
      else
        Run(phase, dir, last, delay, left, clock, i + 1, emitted, stamps)
  }

  /** A whole call of step: `left` advances from the first clock reading on. */
  function StepBurst(phase: int, dir: int, last: int, delay: int, left: nat, clock: seq<int>): Option<Burst>
    requires 0 <= phase < 8 && 0 <= last < ULongModulus
  {
    Run(phase, dir, last, delay, left, clock, 0, [], [])
  }

  /** A burst of `left` advances appends exactly `left` patterns and stamps to those
      carried in, and consumes at least one clock reading per advance. */
  lemma {:induction false} RunShape(phase: int, dir: int, last: int, delay: int, left: nat,
                                    clock: seq<int>, i: nat, emitted: seq<Coils>, stamps: seq<int>)
    requires 0 <= phase < 8 && 0 <= last < ULongModulus && i <= |clock|
    requires Run(phase, dir, last, delay, left, clock, i, emitted, stamps).Some?
    ensures var b := Run(phase, dir, last, delay, left, clock, i, emitted, stamps).value;
      |b.emitted| == |emitted| + left && emitted <= b.emitted
      && |b.stamps| == |stamps| + left && stamps <= b.stamps
      && i + left <= b.polls <= |clock|
    decreases |clock| - i
  {
    if left > 0 {
      var now := Micros(clock[i]);
      if Elapsed(now, last) >= delay {
        var next := NextPhase(phase, dir);
        RunShape(next, dir, now, delay, left - 1, clock, i + 1, emitted + [PhasePattern(next)], stamps + [now]);
      } else {
        RunShape(phase, dir, last, delay, left, clock, i + 1, emitted, stamps);
      }
    }
  }

  lemma ModShift(a: int, d: int, e: int)
    ensures ((a + d) % 8 + e) % 8 == (a + d + e) % 8
  {
    var q := (a + d) / 8;
    assert (a + d) % 8 + e == (a + d + e) + 8 * (-q);
    ModAddMultiple(a + d + e, -q);
  }

  lemma ModAddMultiple(x: int, q: int)
    ensures (x + 8 * q) % 8 == x % 8
  {
    var y := x + 8 * q;
    assert y - 8 * (y / 8) == x - 8 * (x / 8) + 8 * (q + x / 8 - y / 8);
  }

  /** After the burst, the phase has moved by the signed step count, modulo 8. */
  lemma {:induction false} RunPhase(phase: int, dir: int, last: int, delay: int, left: nat,
                                    clock: seq<int>, i: nat, emitted: seq<Coils>, stamps: seq<int>)
    requires 0 <= phase < 8 && 0 <= last < ULongModulus && i <= |clock|
    requires Run(phase, dir, last, delay, left, clock, i, emitted, stamps).Some?
    ensures Run(phase, dir, last, delay, left, clock, i, emitted, stamps).value.phase
         == (phase + Displacement(dir, left)) % 8
    decreases |clock| - i
  {
    if left > 0 {
      var now := Micros(clock[i]);
      if Elapsed(now, last) >= delay {
        var next := NextPhase(phase, dir);
        RunPhase(next, dir, now, delay, left - 1, clock, i + 1, emitted + [PhasePattern(next)], stamps + [now]);
        ModShift(phase, Displacement(dir, 1), Displacement(dir, left - 1));
      } else {
        RunPhase(phase, dir, last, delay, left, clock, i + 1, emitted, stamps);
      }
    }
  }

  /** Pattern j of the burst (counting from the first one this call emits) is that of the
      phase reached by j + 1 moves. */
  lemma {:induction false} RunEmits(phase: int, dir: int, last: int, delay: int, left: nat,
                                    clock: seq<int>, i: nat, emitted: seq<Coils>, stamps: seq<int>, j: int)
    requires 0 <= phase < 8 && 0 <= last < ULongModulus && i <= |clock|
    requires Run(phase, dir, last, delay, left, clock, i, emitted, stamps).Some?
    requires |emitted| <= j < |emitted| + left
    ensures var b := Run(phase, dir, last, delay, left, clock, i, emitted, stamps).value;
      j < |b.emitted| && b.emitted[j] == PhasePattern((phase + Displacement(dir, j - |emitted| + 1)) % 8)
    decreases |clock| - i
  {
    RunShape(phase, dir, last, delay, left, clock, i, emitted, stamps);
    var target := (phase + Displacement(dir, j - |emitted| + 1)) % 8;
    var now := Micros(clock[i]);
    if Elapsed(now, last) >= delay {
      var next := NextPhase(phase, dir);
      var emitted' := emitted + [PhasePattern(next)];
      var b := Run(next, dir, now, delay, left - 1, clock, i + 1, emitted', stamps + [now]).value;
      assert Run(phase, dir, last, delay, left, clock, i, emitted, stamps).value == b;
      if j == |emitted| {
        RunShape(next, dir, now, delay, left - 1, clock, i + 1, emitted', stamps + [now]);
        assert b.emitted[j] == emitted'[j] == PhasePattern(next);
        assert target == next;
      } else {
        RunEmits(next, dir, now, delay, left - 1, clock, i + 1, emitted', stamps + [now], j);
        assert b.emitted[j] == PhasePattern((next + Displacement(dir, j - |emitted|)) % 8);
        ModShift(phase, Displacement(dir, 1), Displacement(dir, j - |emitted|));
        assert Displacement(dir, 1) + Displacement(dir, j - |emitted|) == Displacement(dir, j - |emitted| + 1);
        assert (next + Displacement(dir, j - |emitted|)) % 8 == target;
      }
    } else {
      RunEmits(phase, dir, last, delay, left, clock, i + 1, emitted, stamps, j);
    }
  }

  /** Each stamp fits an unsigned long and lies at least `delay` microseconds (unsigned)
      after the one before it, the first after `last`. */
  ghost predicate Gated(last: int, delay: int, stamps: seq<int>)
    requires 0 <= last < ULongModulus
  {
    (forall k :: 0 <= k < |stamps| ==> 0 <= stamps[k] < ULongModulus)
    && (|stamps| > 0 ==> Elapsed(stamps[0], last) >= delay)
    && (forall k :: 0 < k < |stamps| ==> Elapsed(stamps[k], stamps[k - 1]) >= delay)
  }

  /** The time of the most recent advance: the last stamp, or `last` when there is none. */
  function LastStamp(last: int, stamps: seq<int>): int {
    if stamps == [] then last else stamps[|stamps| - 1]
  }

  lemma GatedSnoc(last0: int, delay: int, stamps: seq<int>, now: int)
    requires 0 <= last0 < ULongModulus && 0 <= now < ULongModulus
    requires Gated(last0, delay, stamps)
    requires Elapsed(now, LastStamp(last0, stamps)) >= delay
    ensures Gated(last0, delay, stamps + [now])
  {
    var s := stamps + [now];
    assert forall k :: 0 <= k < |stamps| ==> s[k] == stamps[k];
  }

  /** Timing gate: every phase advance happened at a reading at least `delay` microseconds
      (unsigned) after the previous advance, and the burst ends with the time of its last
      advance recorded as last_step_time. */
  lemma {:induction false} RunGate(phase: int, dir: int, last0: int, last: int, delay: int, left: nat,
                                   clock: seq<int>, i: nat, emitted: seq<Coils>, stamps: seq<int>)
    requires 0 <= phase < 8 && 0 <= last0 < ULongModulus && 0 <= last < ULongModulus && i <= |clock|
    requires Gated(last0, delay, stamps) && last == LastStamp(last0, stamps)
    requires Run(phase, dir, last, delay, left, clock, i, emitted, stamps).Some?
    ensures var b := Run(phase, dir, last, delay, left, clock, i, emitted, stamps).value;
      Gated(last0, delay, b.stamps) && b.last == LastStamp(last0, b.stamps)
    decreases |clock| - i
  {
    if left > 0 {
      var now := Micros(clock[i]);
      if Elapsed(now, last) >= delay {
        var next := NextPhase(phase, dir);
        GatedSnoc(last0, delay, stamps, now);
        RunGate(next, dir, last0, now, delay, left - 1, clock, i + 1, emitted + [PhasePattern(next)], stamps + [now]);
      } else {
        RunGate(phase, dir, last0, last, delay, left, clock, i + 1, emitted, stamps);
      }
    }
  }

  /** The stamps are clock readings: every stamp of the burst is the truncated reading of
      one of the polls it made, the stamps carried in are kept, and after at least one
      advance last_step_time is the reading of the final poll. */
  lemma {:induction false} RunStampsAreReadings(phase: int, dir: int, last: int, delay: int, left: nat,
                                                clock: seq<int>, i: nat, emitted: seq<Coils>, stamps: seq<int>)
    requires 0 <= phase < 8 && 0 <= last < ULongModulus && i <= |clock|
    requires Run(phase, dir, last, delay, left, clock, i, emitted, stamps).Some?
    ensures var b := Run(phase, dir, last, delay, left, clock, i, emitted, stamps).value;
      b.polls <= |clock| && |stamps| <= |b.stamps| && b.stamps[..|stamps|] == stamps
      && (forall k :: |stamps| <= k < |b.stamps| ==> exists p :: i <= p < b.polls && b.stamps[k] == Micros(clock[p]))
      && (left > 0 ==> i < b.polls && b.last == Micros(clock[b.polls - 1]))
    decreases |clock| - i
  {
    if left > 0 {
      var now := Micros(clock[i]);
      if Elapsed(now, last) >= delay {
        var next := NextPhase(phase, dir);
        var stamps' := stamps + [now];
        RunStampsAreReadings(next, dir, now, delay, left - 1, clock, i + 1, emitted + [PhasePattern(next)], stamps');
        var b := Run(next, dir, now, delay, left - 1, clock, i + 1, emitted + [PhasePattern(next)], stamps').value;
        assert b.stamps[..|stamps|] == b.stamps[..|stamps'|][..|stamps|];
        assert b.stamps[|stamps|] == b.stamps[..|stamps'|][|stamps|] == now;
        forall k | |stamps| <= k < |b.stamps|
          ensures exists p :: i <= p < b.polls && b.stamps[k] == Micros(clock[p])
        {
          if k == |stamps| {
            assert b.stamps[k] == Micros(clock[i]);
          }
        }
      } else {
        RunStampsAreReadings(phase, dir, last, delay, left, clock, i + 1, emitted, stamps);
      }
    }
  }

  /** A poll that fails the gate changes nothing: the busy-wait goes on from the next
      reading with the same phase, timestamp, patterns and stamps. */
  lemma FailedPollChangesNothing(phase: int, dir: int, last: int, delay: int, left: nat,
                                 clock: seq<int>, i: nat, emitted: seq<Coils>, stamps: seq<int>)
    requires 0 <= phase < 8 && 0 <= last < ULongModulus && i < |clock| && left > 0
    requires Elapsed(Micros(clock[i]), last) < delay
    ensures Run(phase, dir, last, delay, left, clock, i, emitted, stamps)
         == Run(phase, dir, last, delay, left, clock, i + 1, emitted, stamps)
  {
  }

  /** Every reading from clock[i] on arrives at least `delay` after the one before it
      (the first after `last`). */
  predicate EveryPollPasses(last: int, delay: int, clock: seq<int>, i: nat)
    requires 0 <= last < ULongModulus && i <= |clock|
    decreases |clock| - i
  {
    i == |clock| ||
    (Elapsed(Micros(clock[i]), last) >= delay && EveryPollPasses(Micros(clock[i]), delay, clock, i + 1))
  }

  /** When every reading passes the gate, the burst completes after exactly `left` readings. */
  lemma {:induction false} RunCompletes(phase: int, dir: int, last: int, delay: int, left: nat,
                                        clock: seq<int>, i: nat, emitted: seq<Coils>, stamps: seq<int>)
    requires 0 <= phase < 8 && 0 <= last < ULongModulus && i + left <= |clock|
    requires EveryPollPasses(last, delay, clock, i)
    ensures Run(phase, dir, last, delay, left, clock, i, emitted, stamps).Some?
    ensures Run(phase, dir, last, delay, left, clock, i, emitted, stamps).value.polls == i + left
    decreases left
  {
    if left > 0 {
      var now := Micros(clock[i]);
      var next := NextPhase(phase, dir);
      RunCompletes(next, dir, now, delay, left - 1, clock, i + 1, emitted + [PhasePattern(next)], stamps + [now]);
    }
  }

  /** What step promises, for a whole call: the phase moves by the signed count modulo 8,
      exactly `left` patterns are emitted, each that of the phase just reached, every
      advance is stamped with a clock reading of one of its polls and gated by the delay,
      and last_step_time ends as the reading of the final poll (unchanged for no step). */
  lemma StepBurstSpec(phase: int, dir: int, last: int, delay: int, left: nat, clock: seq<int>, b: Burst)
    requires 0 <= phase < 8 && 0 <= last < ULongModulus
    requires StepBurst(phase, dir, last, delay, left, clock) == Some(b)
    ensures b.phase == (phase + Displacement(dir, left)) % 8
    ensures |b.emitted| == left
    ensures forall k :: 0 <= k < left ==> b.emitted[k] == PhasePattern((phase + Displacement(dir, k + 1)) % 8)
    ensures Gated(last, delay, b.stamps) && b.last == LastStamp(last, b.stamps)
    ensures |b.stamps| == left && b.polls <= |clock|
    ensures forall k :: 0 <= k < left ==> exists p :: 0 <= p < b.polls && b.stamps[k] == Micros(clock[p])
    ensures left == 0 ==> b.last == last
    ensures left > 0 ==> 0 < b.polls && b.last == Micros(clock[b.polls - 1])
  {
    RunPhase(phase, dir, last, delay, left, clock, 0, [], []);
    RunShape(phase, dir, last, delay, left, clock, 0, [], []);
    forall k | 0 <= k < left
      ensures b.emitted[k] == PhasePattern((phase + Displacement(dir, k + 1)) % 8)
    {
      RunEmits(phase, dir, last, delay, left, clock, 0, [], [], k);
    }
    RunGate(phase, dir, last, last, delay, left, clock, 0, [], []);
    RunStampsAreReadings(phase, dir, last, delay, left, clock, 0, [], []);
  }

  /** A call step(n) that completes leaves the phase at (phase + n) mod 8, whatever the
      direction was before. */
  lemma StepPhase(phase: int, direction: int, last: int, delay: int, n: int, clock: seq<int>)
    requires 0 <= phase < 8 && 0 <= last < ULongModulus
    requires StepBurst(phase, NewDirection(direction, n), last, delay, Abs(n), clock).Some?
    ensures StepBurst(phase, NewDirection(direction, n), last, delay, Abs(n), clock).value.phase
         == (phase + n) % 8
  {
    RunPhase(phase, NewDirection(direction, n), last, delay, Abs(n), clock, 0, [], []);
    assert Displacement(NewDirection(direction, n), Abs(n)) == n;
  }

  /** step(k) followed by step(-k) restores the phase, whatever the clock did. */
  lemma StepThenBack(phase: int, direction: int, last: int, delay: int, k: int,
                     clock1: seq<int>, clock2: seq<int>)
    requires 0 <= phase < 8 && 0 <= last < ULongModulus
    requires StepBurst(phase, NewDirection(direction, k), last, delay, Abs(k), clock1).Some?
    requires var b := StepBurst(phase, NewDirection(direction, k), last, delay, Abs(k), clock1).value;
      StepBurst(b.phase, NewDirection(NewDirection(direction, k), -k), b.last, delay, Abs(-k), clock2).Some?
    ensures var b := StepBurst(phase, NewDirection(direction, k), last, delay, Abs(k), clock1).value;
      StepBurst(b.phase, NewDirection(NewDirection(direction, k), -k), b.last, delay, Abs(-k), clock2).value.phase
      == phase
  {
    var b := StepBurst(phase, NewDirection(direction, k), last, delay, Abs(k), clock1).value;
    StepPhase(phase, direction, last, delay, k, clock1);
    StepPhase(b.phase, NewDirection(direction, k), b.last, delay, -k, clock2);
    PhaseReturns(phase, k);
  }

  lemma PhaseReturns(phase: int, k: int)
    requires 0 <= phase < 8
    ensures ((phase + k) % 8 - k) % 8 == phase
  {
    ModShift(phase, k, -k);
  }

  // ---------------------------------------------------------------------------
  // The driver object (class Stepper)
  // ---------------------------------------------------------------------------

  class Stepper {
    var direction: int
    var stepDelay: int
    const numberOfSteps: int
    var stepNumber: int
    var lastStepTime: int
    /** Whether setSpeed has been called; step_delay holds no defined value before. */
    ghost var speedSet: bool
    /** Every pattern written to the four coil pins, oldest first. */
    ghost var trace: seq<Coils>

    ghost predicate Valid()
      reads this
    {
      numberOfSteps > 0
      && 0 <= stepNumber < 8
      && (direction == 0 || direction == 1)
      && 0 <= lastStepTime < ULongModulus
      && (speedSet ==> 0 <= stepDelay < ULongModulus)
    }

    /** The four pin handles of the source are abstracted into the pattern trace. */
    constructor (numberOfSteps: int)
      requires numberOfSteps > 0
      ensures Valid() && !speedSet
      ensures this.numberOfSteps == numberOfSteps
      ensures stepNumber == 0 && direction == 0 && lastStepTime == 0 && trace == []
    {
      this.numberOfSteps := numberOfSteps;
      stepNumber := 0;
      direction := 0;
      lastStepTime := 0;
      speedSet := false;
      trace := [];
    }

    method SetSpeed(whatSpeed: int)
      requires Valid() && whatSpeed > 0
      modifies this`stepDelay, this`speedSet
      ensures Valid() && speedSet
      ensures stepDelay == StepDelay(numberOfSteps, whatSpeed)
    {
      var speed := whatSpeed;
      if speed > MaxSpeed {
        speed := MaxSpeed;
      }
      stepDelay := MicrosPerMinute / numberOfSteps / speed;
      speedSet := true;
    }

    /** Writes the pattern of thisStep to the coils. */
    method StepMotor(thisStep: int)
      modifies this`trace
      ensures trace == old(trace) + [PhasePattern(thisStep)]
      ensures var p := trace[|trace| - 1];
        [Level(p, 1), Level(p, 2), Level(p, 3), Level(p, 4)] == PinLevels[if 0 <= thisStep < 8 then thisStep else 8]
      ensures var p := trace[|trace| - 1];
        Level(p, 1) + Level(p, 2) + Level(p, 3) + Level(p, 4)
        == if 0 <= thisStep < 8 then (if thisStep % 2 == 0 then 1 else 2) else 0
    {
      trace := trace + [PhasePattern(thisStep)];
      PatternLevels(thisStep, 1);
      PatternLevels(thisStep, 2);
      PatternLevels(thisStep, 3);
      PatternLevels(thisStep, 4);
      HighPins(thisStep);
    }

    /** De-energises every coil; no field of the driver changes. */
    method Stop()
      modifies this`trace
      ensures trace == old(trace) + [AllOff]
    {
      StepMotor(StopIndex);
    }

    /** The body of a passing poll: record the time, move the phase one place in the
        current direction with wrap-around, and put the new pattern on the coils. */
    method Advance(now: int)
      requires Valid() && 0 <= now < ULongModulus
      modifies this`stepNumber, this`lastStepTime, this`trace
      ensures Valid()
      ensures lastStepTime == now && stepNumber == NextPhase(old(stepNumber), direction)
      ensures trace == old(trace) + [PhasePattern(stepNumber)]
    {
      lastStepTime := now;
      if direction == 1 {
        stepNumber := stepNumber + 1;
        if stepNumber > 7 {
          stepNumber := 0;
        }
      } else {
        stepNumber := stepNumber - 1;
        if stepNumber < 0 {
          stepNumber := 7;
        }
      }
      StepMotor(stepNumber);
    }

    /** Moves abs(stepsToMove) phases, backward when stepsToMove is negative, reading
        the clock once per poll; returns how many readings were used. stepsToMove is a
        C int other than INT_MIN, whose abs overflows. */
    method Step(stepsToMove: int, clock: seq<int>) returns (polls: nat)
      requires Valid() && speedSet
      requires -0x8000_0000 < stepsToMove < 0x8000_0000
      requires StepBurst(stepNumber, NewDirection(direction, stepsToMove), lastStepTime, stepDelay,
                         Abs(stepsToMove), clock).Some?
      modifies this`direction, this`stepNumber, this`lastStepTime, this`trace
      ensures Valid()
      ensures direction == NewDirection(old(direction), stepsToMove)
      ensures var b := StepBurst(old(stepNumber), direction, old(lastStepTime), stepDelay,
                                 Abs(stepsToMove), clock).value;
        stepNumber == b.phase && lastStepTime == b.last
        && trace == old(trace) + b.emitted && polls == b.polls
    {
      var stepsLeft := Abs(stepsToMove);
      if stepsToMove > 0 {
        direction := 1;
      }
      if stepsToMove < 0 {
        direction := 0;
      }
      polls := Pulse(stepsLeft, clock);
    }

    /** The busy-wait loop of step: polls the clock until stepsLeft phase advances have
        been made in the current direction. */
    method Pulse(stepsLeft: nat, clock: seq<int>) returns (polls: nat)
      requires Valid() && speedSet
      requires StepBurst(stepNumber, direction, lastStepTime, stepDelay, stepsLeft, clock).Some?
      modifies this`stepNumber, this`lastStepTime, this`trace
      ensures Valid()
      ensures var b := StepBurst(old(stepNumber), direction, old(lastStepTime), stepDelay, stepsLeft, clock).value;
        stepNumber == b.phase && lastStepTime == b.last
        && trace == old(trace) + b.emitted && polls == b.polls
    {
      ghost var total := StepBurst(stepNumber, direction, lastStepTime, stepDelay, stepsLeft, clock);
      ghost var emitted: seq<Coils> := [];
      ghost var stamps: seq<int> := [];
      var left := stepsLeft;
      polls := 0;
      while left > 0
        invariant Valid() && polls <= |clock|
        invariant Run(stepNumber, direction, lastStepTime, stepDelay, left, clock, polls, emitted, stamps) == total
        invariant trace == old(trace) + emitted
        decreases |clock| - polls
      {
        var now := Micros(clock[polls]);
        if Elapsed(now, lastStepTime) >= stepDelay {
          Advance(now);
          left := left - 1;
          emitted := emitted + [PhasePattern(stepNumber)];
          stamps := stamps + [now];
        }
        polls := polls + 1;
      }
    }
  }
}
