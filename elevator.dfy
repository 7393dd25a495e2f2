/**
 * The elevator controller of main/elevator.cpp: the shared floor request table,
 * its status byte, the SCAN destination choice, and one iteration of the control
 * loop of MainTask::run.
 *
 * The globals currentFloor and chosenFloorList live in a Floors object; the locals
 * of MainTask::run that survive from one iteration to the next (currentDirection,
 * isMoving, destinationFloor) are the fields of MainTask. elevatorDetected is a
 * parameter `sensor`, and the tick returns the motor command it issues.
 */
module Elevator {
  import StepperMotor

  /** Floors above this are never chosen going up. */
  const MaxFloor: int := 4
  /** Number of slots of chosenFloorList. */
  const SlotCount: int := 8
  /** The table at power-up: floor 3 requested. */
  const InitialRequests: seq<int> := [0, 0, 0, 1, 0, 0, 0, 0]
  /** Steps of one motor burst per tick. */
  const BurstSteps: int := 10
  /** Steps per revolution and speed MainTask::run configures the motor with. */
  const StepsPerRevolution: int := 4095
  const Speed: int := 10

  datatype Direction = GoingUp | GoingDown

  // ---------------------------------------------------------------------------
  // The request table and its status byte (convertChosenFloor)
  // ---------------------------------------------------------------------------

  /** Every slot is 0 or 1, the only values the firmware ever stores. */
  predicate AreFlags(s: seq<int>) {
    forall i :: 0 <= i < |s| ==> s[i] == 0 || s[i] == 1
  }

  function Pow2(n: nat): nat {
    if n == 0 then 1 else 2 * Pow2(n - 1)
  }

  /** The sum of s[i] * 2^(i - k) over i in [k, |s|): slot k is the least significant digit. */
  function WeightedFrom(s: seq<int>, k: nat): int
    requires k <= |s|
    decreases |s| - k
  {
    if k == |s| then 0 else s[k] + 2 * WeightedFrom(s, k + 1)
  }

  /** The number whose binary digits, least significant first, are the slots. */
  function Weighted(s: seq<int>): int {
    WeightedFrom(s, 0)
  }

  /** Bit i of a non-negative number. */
  function Bit(b: int, i: nat): int
    decreases i
  {
    if i == 0 then b % 2 else Bit(b / 2, i - 1)
  }

  /** The table read back from a status byte: n slots, slot i from bit i. */
  function Unpack(b: int, n: nat): (s: seq<int>)
    decreases n
    ensures |s| == n && AreFlags(s)
  {
    if n == 0 then [] else [b % 2] + Unpack(b / 2, n - 1)
  }

  /** A table of flags packs into a number below 2^(number of digits). */
  lemma {:induction false} WeightedRange(s: seq<int>, k: nat)
    requires AreFlags(s) && k <= |s|
    decreases |s| - k
    ensures 0 <= WeightedFrom(s, k) < Pow2(|s| - k)
  {
    if k < |s| {
      WeightedRange(s, k + 1);
    }
  }

  /** Bit i of the packed table is slot k + i. */
  lemma {:induction false} WeightedBit(s: seq<int>, k: nat, i: nat)
    requires AreFlags(s) && k + i < |s|
    decreases i
    ensures Bit(WeightedFrom(s, k), i) == s[k + i]
  {
    WeightedRange(s, k + 1);
    if i > 0 {
      assert WeightedFrom(s, k) / 2 == WeightedFrom(s, k + 1);
      WeightedBit(s, k + 1, i - 1);
    }
  }

  /** Unpacking the status byte gives the table back. */
  lemma {:induction false} UnpackWeighted(s: seq<int>, k: nat)
    requires AreFlags(s) && k <= |s|
    decreases |s| - k
    ensures Unpack(WeightedFrom(s, k), |s| - k) == s[k..]
  {
    if k < |s| {
      WeightedRange(s, k + 1);
      assert WeightedFrom(s, k) % 2 == s[k] && WeightedFrom(s, k) / 2 == WeightedFrom(s, k + 1);
      UnpackWeighted(s, k + 1);
      assert s[k..] == [s[k]] + s[k + 1..];
    }
  }

  /** The status byte changes only in the bit of the slot written, which takes the new value. */
  lemma {:induction false} WeightedUpdate(s: seq<int>, f: nat, v: int, i: nat)
    requires AreFlags(s) && f < |s| && (v == 0 || v == 1) && i < |s|
    ensures AreFlags(s[f := v])
    ensures Bit(Weighted(s[f := v]), i) == if i == f then v else Bit(Weighted(s), i)
  {
    WeightedBit(s[f := v], 0, i);
    WeightedBit(s, 0, i);
  }

  /** An eight-slot table packs into one byte whose bit i is slot i. */
  lemma StatusByte(s: seq<int>)
    requires |s| == SlotCount && AreFlags(s)
    ensures 0 <= Weighted(s) < 256
    ensures forall i :: 0 <= i < SlotCount ==> Bit(Weighted(s), i) == s[i]
    ensures Unpack(Weighted(s), SlotCount) == s
  {
    WeightedRange(s, 0);
    assert Pow2(8) == 256;
    forall i | 0 <= i < SlotCount
      ensures Bit(Weighted(s), i) == s[i]
    {
      WeightedBit(s, 0, i);
    }
    UnpackWeighted(s, 0);
  }

  // ---------------------------------------------------------------------------
  // The SCAN choice (getDestinationFloor), as functions
  // ---------------------------------------------------------------------------

  /** The lowest requested slot in [lo, hi), or -1. */
  function FirstRequested(s: seq<int>, lo: int, hi: int): (r: int)
    requires 0 <= lo && hi <= |s|
    decreases hi - lo
    ensures r == -1 || (lo <= r < hi && s[r] != 0)
    ensures r == -1 <==> (forall i :: lo <= i < hi ==> s[i] == 0)
    ensures r != -1 ==> forall i :: lo <= i < r ==> s[i] == 0
  {
    if lo >= hi then -1 else if s[lo] != 0 then lo else FirstRequested(s, lo + 1, hi)
  }

  /** The highest requested slot in [lo, hi), or -1. */
  function LastRequested(s: seq<int>, lo: int, hi: int): (r: int)
    requires 0 <= lo && hi <= |s|
    decreases hi - lo
    ensures r == -1 || (lo <= r < hi && s[r] != 0)
    ensures r == -1 <==> (forall i :: lo <= i < hi ==> s[i] == 0)
    ensures r != -1 ==> forall i :: r < i < hi ==> s[i] == 0
  {
    if lo >= hi then -1 else if s[hi - 1] != 0 then hi - 1 else LastRequested(s, lo, hi - 1)
  }

  datatype Selection = Selection(floor: int, dir: Direction)

  /** getDestinationFloor: going up, the lowest request strictly above the current floor and
      below MaxFloor; otherwise (or when that finds none) the highest request at or below the
      current floor, going down; -1 and going up when that finds none either. */
  function Select(s: seq<int>, current: int, dir: Direction): (r: Selection)
    requires |s| == SlotCount && -1 <= current < SlotCount
    ensures r.floor == -1 ==> r.dir == GoingUp
    ensures r.floor != -1 ==> 0 <= r.floor < SlotCount && s[r.floor] != 0
  {
    var up := if dir == GoingUp then FirstRequested(s, current + 1, MaxFloor) else -1;
    if up != -1 then Selection(up, GoingUp)
    else
      var down := LastRequested(s, 0, current + 1);
      if down != -1 then Selection(down, GoingDown) else Selection(-1, GoingUp)
  }

  predicate RequestAbove(s: seq<int>, current: int)
    requires |s| == SlotCount
  {
    exists i :: current < i < MaxFloor && 0 <= i && s[i] != 0
  }

  predicate RequestAtOrBelow(s: seq<int>, current: int)
    requires |s| == SlotCount && current < SlotCount
  {
    exists i :: 0 <= i <= current && s[i] != 0
  }

  /** The SCAN rule, case by case. Going up with a request above: the nearest one above,
      still going up. Otherwise (starting down, or up with nothing above): the nearest
      request at or below the current floor, going down, and when there is none, -1 and
      going up; starting down never looks above. */
  lemma SelectSpec(s: seq<int>, current: int, dir: Direction)
    requires |s| == SlotCount && -1 <= current < SlotCount
    ensures var r := Select(s, current, dir);
      if dir == GoingUp && RequestAbove(s, current) then
        r.dir == GoingUp && current < r.floor < MaxFloor && s[r.floor] != 0
        && (forall i :: current < i < r.floor ==> s[i] == 0)
      else if RequestAtOrBelow(s, current) then
        r.dir == GoingDown && 0 <= r.floor <= current && s[r.floor] != 0
        && (forall i :: r.floor < i <= current ==> s[i] == 0)
      else
        r == Selection(-1, GoingUp)
  {
    var r := Select(s, current, dir);
    if dir == GoingUp && RequestAbove(s, current) {
      var i :| current < i < MaxFloor && 0 <= i && s[i] != 0;
      assert FirstRequested(s, current + 1, MaxFloor) != -1;
    } else if RequestAtOrBelow(s, current) {
      var i :| 0 <= i <= current && s[i] != 0;
      assert LastRequested(s, 0, current + 1) != -1;
    }
  }

  /** With the current floor in range, the result is -1 or a requested floor below MaxFloor. */
  lemma SelectValid(s: seq<int>, current: int, dir: Direction)
    requires |s| == SlotCount && 0 <= current < MaxFloor
    ensures var r := Select(s, current, dir);
      r.floor == -1 || (0 <= r.floor < MaxFloor && s[r.floor] != 0)
  {
  }

  /** A request at the current floor is picked when scanning down and never when scanning
      up: going up with a request above, the current floor is passed over. */
  lemma CurrentFloorOnlyOnTheWayDown(s: seq<int>, current: int)
    requires |s| == SlotCount && 0 <= current < SlotCount && s[current] != 0
    ensures Select(s, current, GoingDown) == Selection(current, GoingDown)
    ensures RequestAbove(s, current) ==> Select(s, current, GoingUp).floor != current
  {
    SelectSpec(s, current, GoingDown);
    SelectSpec(s, current, GoingUp);
  }

  /** Requests at 2 and 5, at floor 3, going up: 5 is not below MaxFloor, so the scan turns
      round and picks 2. */
  lemma UpwardScanStopsBelowMaxFloor()
    ensures Select([0, 0, 1, 0, 0, 1, 0, 0], 3, GoingUp) == Selection(2, GoingDown)
  {
  }

  // ---------------------------------------------------------------------------
  // The sensor (elevatorDetected)
  // ---------------------------------------------------------------------------

  /** The GPIO input wired to the sensor of each mapped floor. */
  function SensorPin(floor: int): int
    requires 0 <= floor < 4
  {
    match floor
    case 0 => 23
    case 1 => 32
    case 2 => 35
    case 3 => 34
  }

  /** elevatorDetected as written: `read` gives the level of a GPIO input, and the sensors
      are active low. For a floor outside 0..3 the pin variable is never assigned, so the
      pin read is whatever `uninitialisedPin` happens to be. */
  function ElevatorDetectedAsWritten(read: int -> bool, uninitialisedPin: int, floor: int): bool {
    !read(if 0 <= floor < 4 then SensorPin(floor) else uninitialisedPin)
  }

  /** elevatorDetected with unmapped floors reading as "not present". */
  function ElevatorDetected(read: int -> bool, floor: int): (present: bool)
    ensures present ==> 0 <= floor < 4
    ensures 0 <= floor < 4 ==> present == ElevatorDetectedAsWritten(read, 0, floor)
  {
    0 <= floor < 4 && !read(SensorPin(floor))
  }

  // ---------------------------------------------------------------------------
  // One iteration of MainTask::run, as a function
  // ---------------------------------------------------------------------------

  /** The state one iteration reads and writes: the two globals and the three loop locals. */
  datatype Machine = Machine(slots: seq<int>, currentFloor: int, isMoving: bool,
                             destination: int, direction: Direction)

  /** What an iteration does to the motor before its closing delay: nothing (no floor to go
      to, wait 1000 ms), stop() (arrived, wait 2500 ms) or step(steps) (then wait 10 ms). */
  datatype Command = Wait | Halt | Move(steps: int)

  /** The milliseconds of the delay() closing an iteration with command c. */
  function DwellMillis(c: Command): nat {
    match c
    case Wait => 1000
    case Halt => 2500
    case Move(_) => 10
  }

  datatype TickResult = TickResult(next: Machine, command: Command)

  /** States an iteration can run from without indexing chosenFloorList out of bounds. */
  predicate WellFormed(m: Machine) {
    |m.slots| == SlotCount && AreFlags(m.slots)
    && -1 <= m.currentFloor < SlotCount
    && (m.isMoving ==> 0 <= m.destination < SlotCount)
  }

  /** The destination and direction the iteration works with: picked afresh when idle. */
  function Target(m: Machine): Selection
    requires WellFormed(m)
  {
    if m.isMoving then Selection(m.destination, m.direction)
    else Select(m.slots, m.currentFloor, m.direction)
  }

  /** The floor the cabin reaches next when moving in dir. */
  function Adjacent(floor: int, dir: Direction): int {
    if dir == GoingUp then floor + 1 else floor - 1
  }

  /** One iteration of the control loop, with elevatorDetected as `sensor`. */
  function TickSpec(m: Machine, sensor: int -> bool): (r: TickResult)
    requires WellFormed(m)
    ensures |r.next.slots| == SlotCount && AreFlags(r.next.slots)
    ensures r.next.isMoving ==> 0 <= r.next.destination < SlotCount
    ensures r.next.isMoving <==> r.command.Move?
    ensures r.command == Halt ==> r.next.currentFloor == r.next.destination
  {
    var t := Target(m);
    if t.floor == -1 then
      TickResult(m.(isMoving := false, destination := -1, direction := t.dir), Wait)
    else if sensor(t.floor) then
      TickResult(Machine(m.slots[t.floor := 0], t.floor, false, t.floor, t.dir), Halt)
    else
      var next := Adjacent(m.currentFloor, t.dir);
      TickResult(Machine(m.slots, if sensor(next) then next else m.currentFloor, true, t.floor, t.dir),
           Move(if t.dir == GoingUp then BurstSteps else -BurstSteps))
  }

  /** Arrival: when the sensor of the destination fires, the motor is stopped, the cabin is
      at the destination, its request is cleared and the controller goes idle. */
  lemma TickArrival(m: Machine, sensor: int -> bool)
    requires WellFormed(m)
    requires Target(m).floor != -1 && sensor(Target(m).floor)
    ensures var d := Target(m).floor; var t := TickSpec(m, sensor);
      t.command == Halt && t.next.currentFloor == d && !t.next.isMoving
      && t.next.slots == m.slots[d := 0] && t.next.slots[d] == 0
      && (forall i :: 0 <= i < |m.slots| && i != d ==> t.next.slots[i] == m.slots[i])
  {
  }

  /** On the way: the destination is kept, the request table is unchanged, the floor moves
      only to the adjacent one in the direction of travel and only when its sensor fires,
      and the burst is +10 steps going up and -10 going down. */
  lemma TickProgress(m: Machine, sensor: int -> bool)
    requires WellFormed(m)
    requires Target(m).floor != -1 && !sensor(Target(m).floor)
    ensures var d := Target(m); var t := TickSpec(m, sensor);
      var next := if d.dir == GoingUp then m.currentFloor + 1 else m.currentFloor - 1;
      t.next.isMoving && t.next.destination == d.floor && t.next.direction == d.dir
      && t.next.slots == m.slots
      && (t.next.currentFloor == next <==> sensor(next))
      && (t.next.currentFloor == m.currentFloor <==> !sensor(next))
      && t.command == Move(if d.dir == GoingUp then 10 else -10)
  {
  }

  /** Nothing to go to: the controller goes idle facing up and touches neither the cabin nor
      the table. */
  lemma TickIdle(m: Machine, sensor: int -> bool)
    requires WellFormed(m) && Target(m).floor == -1
    ensures var t := TickSpec(m, sensor);
      t.command == Wait && !t.next.isMoving && t.next.direction == GoingUp
      && t.next.slots == m.slots && t.next.currentFloor == m.currentFloor
  {
  }

  /** Requests are cleared only on arrival, and only the destination's: any other iteration
      leaves the table alone. */
  lemma TableChangesOnlyOnArrival(m: Machine, sensor: int -> bool)
    requires WellFormed(m)
    ensures var t := TickSpec(m, sensor);
      t.command != Halt ==> t.next.slots == m.slots
    ensures var t := TickSpec(m, sensor);
      t.command == Halt ==> t.next.slots == m.slots[t.next.currentFloor := 0]
  {
  }

  /** An elevatorDetected that only fires at mapped floors below MaxFloor. */
  ghost predicate MappedSensor(sensor: int -> bool) {
    forall f :: sensor(f) ==> 0 <= f < MaxFloor
  }

  /** The cabin is at a real floor, and a pursued destination is one. */
  predicate InService(m: Machine) {
    WellFormed(m) && 0 <= m.currentFloor < MaxFloor
    && (m.isMoving ==> 0 <= m.destination < MaxFloor)
  }

  /** With a sensor that never fires off the map, every iteration keeps the cabin at a real
      floor and the destination below MaxFloor. */
  lemma TickKeepsFloorInRange(m: Machine, sensor: int -> bool)
    requires InService(m) && MappedSensor(sensor)
    ensures InService(TickSpec(m, sensor).next)
  {
    if !m.isMoving {
      SelectValid(m.slots, m.currentFloor, m.direction);
    }
    var t := Target(m);
    if t.floor != -1 && sensor(t.floor) {
      assert AreFlags(m.slots[t.floor := 0]) by {
        WeightedUpdate(m.slots, t.floor, 0, 0);
      }
    }
  }

  /** The corrected elevatorDetected fires only at mapped floors, whatever the pins read,
      so the iteration keeps the cabin in service. */
  lemma CorrectedSensorKeepsFloorInRange(m: Machine, read: int -> bool)
    requires InService(m)
    ensures InService(TickSpec(m, f => ElevatorDetected(read, f)).next)
  {
    TickKeepsFloorInRange(m, f => ElevatorDetected(read, f));
  }

  /** As written, elevatorDetected(-1) reads a pin that was never assigned. At floor 0 with
      floor 0 requested and the cabin not yet seen by sensor 0, the iteration asks for floor
      -1, and when the stray pin happens to read low the cabin is recorded at floor -1. */
  lemma UnmappedSensorMovesFloorOutOfRange()
    ensures var m := Machine([1, 0, 0, 0, 0, 0, 0, 0], 0, false, 0, GoingUp);
      var read := (pin: int) => pin != 99;
      var t := TickSpec(m, f => ElevatorDetectedAsWritten(read, 99, f));
      InService(m) && t.command == Move(-10) && t.next.currentFloor == -1 && !InService(t.next)
  {
  }

  /** The power-up scenario: floor 3 requested, the cabin at floor 0 going up. The first
      iteration picks 3 and drives up; the sensors of floors 1 and 2 move the recorded floor
      on; the sensor of floor 3 stops the motor and clears the request, and the controller
      then idles. */
  lemma PowerUpScenario()
    ensures var m0 := Machine(InitialRequests, 0, false, 0, GoingUp);
      var t1 := TickSpec(m0, f => false);
      var t2 := TickSpec(t1.next, f => f == 1);
      var t3 := TickSpec(t2.next, f => f == 2);
      var t4 := TickSpec(t3.next, f => f == 3);
      var t5 := TickSpec(t4.next, f => f == 3);
      t1.command == Move(10) && t1.next.destination == 3 && t1.next.currentFloor == 0
      && t2.command == Move(10) && t2.next.currentFloor == 1
      && t3.command == Move(10) && t3.next.currentFloor == 2
      && t4.command == Halt && t4.next.currentFloor == 3 && t4.next.slots == [0, 0, 0, 0, 0, 0, 0, 0]
      && t5.command == Wait && !t5.next.isMoving
  {
  }

  // ---------------------------------------------------------------------------
  // The shared globals and the operations on them
  // ---------------------------------------------------------------------------

  /** currentFloor and chosenFloorList. */
  class Floors {
    var currentFloor: int
    const chosenFloorList: array<int>

    ghost predicate Valid()
      reads this, chosenFloorList
    {
      chosenFloorList.Length == SlotCount && AreFlags(chosenFloorList[..])
    }

    constructor ()
      ensures Valid() && fresh(chosenFloorList)
      ensures currentFloor == 0 && chosenFloorList[..] == InitialRequests
    {
      currentFloor := 0;
      var a := new int[SlotCount];
      a[0], a[1], a[2], a[3], a[4], a[5], a[6], a[7] := 0, 0, 0, 1, 0, 0, 0, 0;
      chosenFloorList := a;
      assert a[..] == InitialRequests;
    }
  }

  /** convertChosenFloor: the status byte MyNotifyTask sends, bit i set exactly when floor i
      is requested. */
  method ConvertChosenFloor(floors: Floors) returns (decimal: int)
    requires floors.Valid()
    ensures decimal == Weighted(floors.chosenFloorList[..])
    ensures 0 <= decimal < 256
    ensures forall i :: 0 <= i < SlotCount ==> Bit(decimal, i) == floors.chosenFloorList[i]
  {
    var a := floors.chosenFloorList;
    decimal := 0;
    var i := 7;
    while i >= 0
      invariant -1 <= i <= 7
      invariant decimal == WeightedFrom(a[..], i + 1)
    {
      decimal := decimal * 2 + a[i];
      i := i - 1;
    }
    StatusByte(a[..]);
  }

  /** MyCallbacks::onWrite: a non-empty write names the floor whose slot is set. The written
      value is the characteristic's bytes. The index is not checked, so a caller must stay
      within the table; bytes 0..7 index the same slot whether `char` is signed or not. */
  method OnWrite(floors: Floors, value: seq<bv8>)
    requires floors.Valid()
    requires |value| > 0 ==> value[0] as int < SlotCount
    modifies floors.chosenFloorList
    ensures floors.Valid()
    ensures floors.chosenFloorList[..]
         == if |value| > 0 then old(floors.chosenFloorList[..])[value[0] as int := 1]
            else old(floors.chosenFloorList[..])
  {
    if |value| > 0 {
      var tmp := value[0] as int;
      floors.chosenFloorList[tmp] := 1;
    }
  }

  // ---------------------------------------------------------------------------
  // The control task
  // ---------------------------------------------------------------------------

  /** The locals of MainTask::run that carry over from one iteration to the next. */
  class MainTask {
    var currentDirection: Direction
    var isMoving: bool
    var destinationFloor: int

    constructor ()
      ensures currentDirection == GoingUp && !isMoving && destinationFloor == 0
    {
      currentDirection := GoingUp;
      isMoving := false;
      destinationFloor := 0;
    }

    ghost function State(floors: Floors): Machine
      reads this, floors, floors.chosenFloorList
    {
      Machine(floors.chosenFloorList[..], floors.currentFloor, isMoving, destinationFloor, currentDirection)
    }

    /** getDestinationFloor: the SCAN choice over the request table, returning the new
        direction instead of writing through a reference. */
    method GetDestinationFloor(floors: Floors, dir: Direction) returns (result: int, newDir: Direction)
      requires floors.Valid() && -1 <= floors.currentFloor < SlotCount
      ensures Selection(result, newDir) == Select(floors.chosenFloorList[..], floors.currentFloor, dir)
    {
      var a, current := floors.chosenFloorList, floors.currentFloor;
      result := -1;
      newDir := dir;
      if newDir == GoingUp {
        var i := current + 1;
        while i < MaxFloor
          invariant current + 1 <= i <= if current + 1 <= MaxFloor then MaxFloor else current + 1
          invariant forall j :: current + 1 <= j < i ==> a[j] == 0
        {
          if a[i] != 0 {
            result := i;
            break;
          }
          i := i + 1;
        }
        if result == -1 {
          newDir := GoingDown;
        }
      }
      if newDir == GoingDown {
        var i := current;
        while i >= 0
          invariant -1 <= i <= current
          invariant forall j :: i < j <= current ==> a[j] == 0
        {
          if a[i] != 0 {
            result := i;
            break;
          }
          i := i - 1;
        }
        if result == -1 {
          newDir := GoingUp;
        }
      }
    }

    /** deleteChosenFloor: clears one slot and nothing else. */
    method DeleteChosenFloor(floors: Floors, floor: int)
      requires floors.Valid() && 0 <= floor < SlotCount
      modifies floors.chosenFloorList
      ensures floors.Valid()
      ensures floors.chosenFloorList[..] == old(floors.chosenFloorList[..])[floor := 0]
    {
      floors.chosenFloorList[floor] := 0;
    }

    /** The decisions of one iteration of the loop of MainTask::run; the motor command is
        returned rather than issued. */
    method Tick(floors: Floors, sensor: int -> bool) returns (cmd: Command)
      requires floors.Valid() && WellFormed(State(floors))
      modifies this, floors, floors.chosenFloorList
      ensures floors.Valid()
      ensures State(floors) == TickSpec(old(State(floors)), sensor).next
      ensures cmd == TickSpec(old(State(floors)), sensor).command
    {
      if !isMoving {
        destinationFloor, currentDirection := GetDestinationFloor(floors, currentDirection);
        isMoving := true;
      }
      if destinationFloor == -1 {
        isMoving := false;
        return Wait;
      }
      if isMoving {
        if sensor(destinationFloor) {
          floors.currentFloor := destinationFloor;
          DeleteChosenFloor(floors, destinationFloor);
          isMoving := false;
          return Halt;
        }
        var nextFloor := 0;
        if currentDirection == GoingUp {
          nextFloor := floors.currentFloor + 1;
        } else {
          nextFloor := floors.currentFloor - 1;
        }
        if sensor(nextFloor) {
          floors.currentFloor := nextFloor;
        }
      }
      var stepsDir := if currentDirection == GoingUp then 1 else -1;
      cmd := Move(BurstSteps * stepsDir);
    }

    /** One whole iteration: the decisions of Tick, then stop() or step() on the motor, and
        the length of the closing delay() in milliseconds. */
    method Iterate(floors: Floors, motor: StepperMotor.Stepper, sensor: int -> bool, clock: seq<int>)
        returns (cmd: Command, delayMs: nat)
      requires floors.Valid() && WellFormed(State(floors))
      requires motor.Valid() && motor.speedSet
      requires var c := TickSpec(State(floors), sensor).command;
        c.Move? ==> StepperMotor.StepBurst(motor.stepNumber, StepperMotor.NewDirection(motor.direction, c.steps),
                                           motor.lastStepTime, motor.stepDelay, StepperMotor.Abs(c.steps), clock).Some?
      modifies this, floors, floors.chosenFloorList
      modifies motor`direction, motor`stepNumber, motor`lastStepTime, motor`trace
      ensures floors.Valid() && motor.Valid()
      ensures motor.speedSet && motor.stepDelay == old(motor.stepDelay)
      ensures State(floors) == TickSpec(old(State(floors)), sensor).next
      ensures cmd == TickSpec(old(State(floors)), sensor).command
      ensures cmd == Halt ==> motor.trace == old(motor.trace) + [StepperMotor.AllOff]
      ensures cmd.Move? ==> motor.direction == StepperMotor.NewDirection(old(motor.direction), cmd.steps)
      ensures cmd.Move? ==>
        var b := StepperMotor.StepBurst(old(motor.stepNumber), StepperMotor.NewDirection(old(motor.direction), cmd.steps),
                                        old(motor.lastStepTime), old(motor.stepDelay), StepperMotor.Abs(cmd.steps), clock).value;
        motor.stepNumber == b.phase && motor.lastStepTime == b.last
        && motor.trace == old(motor.trace) + b.emitted
      ensures !cmd.Move? ==>
        (motor.stepNumber == old(motor.stepNumber) && motor.lastStepTime == old(motor.lastStepTime)
         && motor.direction == old(motor.direction))
      ensures cmd == Wait ==> motor.trace == old(motor.trace)
      ensures delayMs == DwellMillis(cmd)
    {
      cmd := Tick(floors, sensor);
      match cmd
      case Halt =>
        motor.Stop();
        delayMs := 2500;
      case Move(steps) =>
        var polls := motor.Step(steps, clock);
        delayMs := 10;
      case Wait =>
        delayMs := 1000;
    }
  }

  /** The set-up at the top of MainTask::run: a 4095-step motor at 10 rpm with its coils off,
      going up, not moving. */
  method StartMainTask() returns (motor: StepperMotor.Stepper, task: MainTask)
    ensures fresh(motor) && fresh(task)
    ensures motor.Valid() && motor.speedSet && motor.numberOfSteps == StepsPerRevolution
    ensures motor.stepDelay == 1465 && motor.stepNumber == 0 && motor.direction == 0
    ensures motor.lastStepTime == 0 && motor.trace == [StepperMotor.AllOff]
    ensures task.currentDirection == GoingUp && !task.isMoving && task.destinationFloor == 0
  {
    motor := new StepperMotor.Stepper(StepsPerRevolution);
    motor.SetSpeed(Speed);
    StepperMotor.ElevatorMotorDelay();
    motor.Stop();
    task := new MainTask();
  }
}
