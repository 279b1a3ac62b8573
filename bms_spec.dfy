/** Specification of the battery-management system in bms-code.c: the
    configuration constants, the encodings of states and fault bits, and one
    function per per-cycle operation saying what that operation computes from
    the sensor readings and the previous state. */
module BmsSpec {

  // ---------------------------------------------------------------------
  // Configuration parameters
  // ---------------------------------------------------------------------

  const NumCells: nat := 12
  const NumTempSensors: nat := 8
  const CellVoltageMin: int := 2800        // mV
  const CellVoltageMax: int := 4200        // mV
  const CellVoltageBalance: int := 3900    // mV
  const CellVoltageImbalance: int := 50    // mV
  const TempMin: int := 0                  // degrees Celsius
  const TempMax: int := 45                 // degrees Celsius
  const CurrentMax: int := 100             // A
  const CurrentThreshold: int := 500       // mA; the charge/discharge detection threshold
  const Uint16Max: int := 0xFFFF
  const Uint32Modulus: int := 0x1_0000_0000
  const CapacityFullMah: int := 50000      // 50 Ah

  // Derived thresholds, as bms_check_faults computes them
  const PackVoltageMin: int := CellVoltageMin * NumCells   // 33600 mV
  const PackVoltageMax: int := CellVoltageMax * NumCells   // 50400 mV
  const OvercurrentLimit: int := CurrentMax * 1000         // 100000 mA

  // ---------------------------------------------------------------------
  // bms_state_t: an enumeration, stored as an int as in C, so that a value
  // outside the six named states is representable
  // ---------------------------------------------------------------------

  const StateInit: int := 0
  const StateIdle: int := 1
  const StateCharging: int := 2
  const StateDischarging: int := 3
  const StateBalancing: int := 4
  const StateFault: int := 5

  // ---------------------------------------------------------------------
  // fault_code_t: the faults raised in one check, one bit each in an
  // 8-bit code. The model keeps the set of raised faults; FaultCode gives
  // the byte the C record stores.
  // ---------------------------------------------------------------------

  datatype Fault =
    | CellUndervoltage
    | CellOvervoltage
    | PackUndervoltage
    | PackOvervoltage
    | OverTemperature
    | UnderTemperature
    | Overcurrent
    | CellImbalance

  /** The bit of each fault in fault_code_t. */
  function Bit(f: Fault): bv8 {
    match f
    case CellUndervoltage => 0x01
    case CellOvervoltage => 0x02
    case PackUndervoltage => 0x04
    case PackOvervoltage => 0x08
    case OverTemperature => 0x10
    case UnderTemperature => 0x20
    case Overcurrent => 0x40
    case CellImbalance => 0x80
  }

  /** FAULT_NONE. */
  const FaultNone: bv8 := 0x00

  /** The fault code byte: the bits of the raised faults OR-ed together
      (lemma FaultCodeEncodes says it is a faithful encoding). */
  function FaultCode(faults: set<Fault>): bv8 {
    PackBits(
      CellUndervoltage in faults, CellOvervoltage in faults,
      PackUndervoltage in faults, PackOvervoltage in faults,
      OverTemperature in faults, UnderTemperature in faults,
      Overcurrent in faults, CellImbalance in faults)
  }

  /** One flag per fault, in the order of the bits, packed into a byte. */
  function PackBits(b0: bool, b1: bool, b2: bool, b3: bool, b4: bool, b5: bool, b6: bool, b7: bool): bv8 {
    (if b0 then Bit(CellUndervoltage) else FaultNone)
    | (if b1 then Bit(CellOvervoltage) else FaultNone)
    | (if b2 then Bit(PackUndervoltage) else FaultNone)
    | (if b3 then Bit(PackOvervoltage) else FaultNone)
    | (if b4 then Bit(OverTemperature) else FaultNone)
    | (if b5 then Bit(UnderTemperature) else FaultNone)
    | (if b6 then Bit(Overcurrent) else FaultNone)
    | (if b7 then Bit(CellImbalance) else FaultNone)
  }

  // ---------------------------------------------------------------------
  // Sensor readings and the ranges of their C types
  // ---------------------------------------------------------------------

  /** One sample of every sensor: cell voltages (uint16, mV), temperatures
      (int8, degrees Celsius) and pack current (int32, mA, positive for
      discharge). */
  datatype Reading = Reading(cells: seq<int>, temps: seq<int>, current: int)

  predicate CellsInRange(v: seq<int>) {
    |v| == NumCells && forall k :: 0 <= k < |v| ==> 0 <= v[k] <= Uint16Max
  }

  predicate TempsInRange(t: seq<int>) {
    |t| == NumTempSensors && forall k :: 0 <= k < |t| ==> -128 <= t[k] <= 127
  }

  predicate CurrentInRange(c: int) {
    -0x8000_0000 <= c < 0x8000_0000
  }

  predicate ReadingInRange(r: Reading) {
    CellsInRange(r.cells) && TempsInRange(r.temps) && CurrentInRange(r.current)
  }

  // ---------------------------------------------------------------------
  // Aggregates over the cells
  // ---------------------------------------------------------------------

  /** Sum of a sequence, accumulated left to right as the C loops do. */
  function Sum(s: seq<int>): int {
    if |s| == 0 then 0 else Sum(s[..|s| - 1]) + s[|s| - 1]
  }

  /** Largest cell voltage, found by a scan that starts from 0 (lemma
      MaxCellIsMaximum says what it is). */
  function MaxCell(v: seq<int>): int {
    if |v| == 0 then 0
    else
      var m := MaxCell(v[..|v| - 1]);
      if v[|v| - 1] > m then v[|v| - 1] else m
  }

  /** Smallest cell voltage, found by a scan that starts from UINT16_MAX
      (lemma MinCellIsMinimum says what it is). */
  function MinCell(v: seq<int>): int {
    if |v| == 0 then Uint16Max
    else
      var m := MinCell(v[..|v| - 1]);
      if v[|v| - 1] < m then v[|v| - 1] else m
  }

  /** Difference between the highest and the lowest cell. */
  function Spread(v: seq<int>): int {
    MaxCell(v) - MinCell(v)
  }

  predicate SomeBelow(s: seq<int>, bound: int) {
    exists k :: 0 <= k < |s| && s[k] < bound
  }

  predicate SomeAbove(s: seq<int>, bound: int) {
    exists k :: 0 <= k < |s| && s[k] > bound
  }

  // ---------------------------------------------------------------------
  // State of charge (bms_update_soc)
  // ---------------------------------------------------------------------

  /** Integer average cell voltage; the sum of twelve uint16 values fits
      the uint32 accumulator, so no wrap-around occurs. */
  function AverageCellVoltage(v: seq<int>): int
    requires CellsInRange(v)
  {
    Sum(v) / NumCells
  }

  /** State of charge in percent: 0 at or below the minimum cell voltage,
      100 at or above the maximum, truncated linear interpolation between. */
  function SocFromAverage(avg: int): (r: int)
    ensures 0 <= r <= 100
    ensures r == 100 <==> avg >= CellVoltageMax
    ensures r == 0 <==> avg < CellVoltageMin + (CellVoltageMax - CellVoltageMin) / 100
  {
    if avg <= CellVoltageMin then 0
    else if avg >= CellVoltageMax then 100
    else (avg - CellVoltageMin) * 100 / (CellVoltageMax - CellVoltageMin)
  }

  function SocOf(v: seq<int>): int
    requires CellsInRange(v)
  {
    SocFromAverage(AverageCellVoltage(v))
  }

  /** Remaining capacity in mAh: the product capacity_full * soc is taken
      in uint32 arithmetic (modulo 2^32) and then divided by 100. */
  function RemainingCapacity(full: int, soc: int): int
    requires 0 <= full < Uint32Modulus && 0 <= soc
  {
    (full * soc) % Uint32Modulus / 100
  }

  // ---------------------------------------------------------------------
  // Fault detection (bms_check_faults)
  // ---------------------------------------------------------------------

  /** The singleton {f} when `condition` holds, no fault otherwise. */
  function RaiseIf(condition: bool, f: Fault): set<Fault> {
    if condition then {f} else {}
  }

  /** The faults raised from scratch by one set of readings (lemmas
      VoltageFaultConditions and TemperatureCurrentFaultConditions say when each one is raised). */
  function FaultsOf(v: seq<int>, t: seq<int>, current: int): set<Fault> {
    CellFaults(v)
    + RaiseIf(Spread(v) > CellVoltageImbalance, CellImbalance)
    + RaiseIf(Sum(v) < PackVoltageMin, PackUndervoltage)
    + RaiseIf(Sum(v) > PackVoltageMax, PackOvervoltage)
    + TempFaults(t)
    + RaiseIf(current > OvercurrentLimit, Overcurrent)
  }

  /** The faults raised by the per-cell voltage checks. */
  function CellFaults(v: seq<int>): set<Fault> {
    RaiseIf(SomeBelow(v, CellVoltageMin), CellUndervoltage)
    + RaiseIf(SomeAbove(v, CellVoltageMax), CellOvervoltage)
  }

  /** The faults raised by the per-sensor temperature checks. */
  function TempFaults(t: seq<int>): set<Fault> {
    RaiseIf(SomeBelow(t, TempMin), UnderTemperature)
    + RaiseIf(SomeAbove(t, TempMax), OverTemperature)
  }

  // ---------------------------------------------------------------------
  // State machine (bms_state_machine, bms_init)
  // ---------------------------------------------------------------------

  /** The next state from the current one, the fault code and the readings.
      A raised fault wins over every transition; a value outside the six
      named states is reset to INIT. */
  function NextState(state: int, faults: set<Fault>, current: int, v: seq<int>): int {
    if faults != {} then StateFault
    else if state == StateInit then StateIdle
    else if state == StateIdle then
      if current < -CurrentThreshold then StateCharging
      else if current > CurrentThreshold then StateDischarging
      else if MaxCell(v) > CellVoltageBalance && Spread(v) > CellVoltageImbalance then StateBalancing
      else StateIdle
    else if state == StateCharging then
      if current > -CurrentThreshold then StateIdle else StateCharging
    else if state == StateDischarging then
      if current < CurrentThreshold then StateIdle else StateDischarging
    else if state == StateBalancing then
      if MaxCell(v) <= CellVoltageBalance || Spread(v) <= CellVoltageImbalance then StateIdle
      else if current < -CurrentThreshold then StateCharging
      else StateBalancing
    else if state == StateFault then
      // the fault code is known to be clear here, so the fault is left
      if faults == {} then StateIdle else StateFault
    else StateInit
  }

  /** The state bms_init ends in: IDLE when the first readings raise no
      fault, FAULT otherwise. */
  function InitialState(r: Reading): int {
    if FaultsOf(r.cells, r.temps, r.current) == {} then StateIdle else StateFault
  }

  /** The state after one iteration of the main loop: faults are checked on
      the new readings before the state machine runs. */
  function StepState(state: int, r: Reading): int {
    NextState(state, FaultsOf(r.cells, r.temps, r.current), r.current, r.cells)
  }

  /** The state after running the main loop over the readings in order. */
  function StateAfter(state: int, rs: seq<Reading>): int {
    if |rs| == 0 then state
    else StepState(StateAfter(state, rs[..|rs| - 1]), rs[|rs| - 1])
  }

  /** The states the system occupies once it is running. */
  predicate Operational(state: int) {
    state in {StateIdle, StateCharging, StateDischarging, StateFault}
  }

  // ---------------------------------------------------------------------
  // Hardware side effects
  // ---------------------------------------------------------------------

  /** A call to one of the hardware switches. */
  datatype Event =
    | BalanceSwitch(cell: int, on: bool)
    | ChargerEnable(on: bool)
    | DischargeEnable(on: bool)

  // ---------------------------------------------------------------------
  // Cell balancing (bms_perform_balancing)
  // ---------------------------------------------------------------------

  /** The balancing flags after one balancing pass: all off outside
      CHARGING and BALANCING or when no cell reaches the balancing
      threshold; otherwise on for the cells above the threshold that lie
      within the imbalance margin of the highest cell. */
  function BalanceTarget(state: int, v: seq<int>): (r: seq<bool>)
    ensures |r| == |v|
  {
    if state != StateCharging && state != StateBalancing then seq(|v|, _ => false)
    else if MaxCell(v) < CellVoltageBalance then seq(|v|, _ => false)
    else
      seq(|v|, i requires 0 <= i < |v| =>
        v[i] > CellVoltageBalance && v[i] > MaxCell(v) - CellVoltageImbalance)
  }

  /** The switch calls that take the flags of the first `n` cells from
      `before` to `after`, in cell order (lemmas SwitchEventsExact and
      SwitchEventsOrdered say which calls these are). */
  function SwitchEvents(before: seq<bool>, after: seq<bool>, n: nat): seq<Event>
    requires n <= |before| && n <= |after|
  {
    if n == 0 then []
    else
      SwitchEvents(before, after, n - 1)
      + (if before[n - 1] != after[n - 1] then [BalanceSwitch(n - 1, after[n - 1])] else [])
  }

  // ---------------------------------------------------------------------
  // Output control (bms_control_outputs)
  // ---------------------------------------------------------------------

  datatype Outputs = Outputs(charger: bool, discharge: bool)

  /** The charger and discharge enables for a state. */
  function OutputsFor(state: int): (r: Outputs)
    ensures r.charger <==> state in {StateIdle, StateBalancing, StateCharging}
    ensures r.discharge <==> state in {StateIdle, StateBalancing, StateDischarging}
  {
    if state == StateInit || state == StateFault then Outputs(false, false)
    else if state == StateIdle || state == StateBalancing then Outputs(true, true)
    else if state == StateCharging then Outputs(true, false)
    else if state == StateDischarging then Outputs(false, true)
    else Outputs(false, false)
  }

  /** The two switch calls bms_control_outputs issues, charger first. */
  function OutputEvents(state: int): seq<Event> {
    [ChargerEnable(OutputsFor(state).charger), DischargeEnable(OutputsFor(state).discharge)]
  }
}
