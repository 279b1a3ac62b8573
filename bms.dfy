/** The battery-management record bms_data_t and the per-cycle operations
    that update it in place. Sensor readings arrive as method inputs; the
    calls to the hardware switches are recorded, in order, in a ghost log. */
module Bms {
  import opened BmsSpec
  import opened BmsProperties

  class BatteryManager {
    var state: int
    const cellVoltages: array<int>          // uint16, mV
    const temperatures: array<int>          // int8, degrees Celsius
    var current: int                        // int32, mA, positive for discharge
    var soc: int                            // uint8, percent
    var capacityRemaining: int              // uint32, mAh
    var capacityFull: int                   // uint32, mAh
    const balancingActive: array<bool>
    /** fault_code, as the set of faults whose bits are set; the byte
        itself is FaultCode(faultCode). */
    var faultCode: set<Fault>
    /** The switch calls issued so far, oldest first. */
    ghost var log: seq<Event>

    /** The record's invariant: fixed array sizes and the ranges of the C
        field types; the state is deliberately unconstrained. */
    ghost predicate Valid()
      reads this, cellVoltages, temperatures, balancingActive
    {
      && cellVoltages.Length == NumCells
      && temperatures.Length == NumTempSensors
      && balancingActive.Length == NumCells
      && cellVoltages != temperatures
      && CellsInRange(cellVoltages[..])
      && TempsInRange(temperatures[..])
      && CurrentInRange(current)
      && 0 <= soc <= 100
      && capacityFull == CapacityFullMah
      && 0 <= capacityRemaining <= capacityFull
    }

    /** bms_init: clears the record, sets the full capacity, takes the
        first readings, estimates the charge, checks faults and starts in
        IDLE, or in FAULT when a fault is raised. */
    constructor (r: Reading)
      requires ReadingInRange(r)
      ensures Valid()
      ensures fresh(cellVoltages) && fresh(temperatures) && fresh(balancingActive)
      ensures cellVoltages[..] == r.cells && temperatures[..] == r.temps && current == r.current
      ensures capacityFull == CapacityFullMah
      ensures soc == SocOf(r.cells) && capacityRemaining == RemainingCapacity(capacityFull, soc)
      ensures faultCode == FaultsOf(r.cells, r.temps, r.current)
      ensures state == InitialState(r)
      ensures forall k :: 0 <= k < NumCells ==> !balancingActive[k]
      ensures log == []
    {
      state := StateInit;
      cellVoltages := new int[NumCells](_ => 0);
      temperatures := new int[NumTempSensors](_ => 0);
      current := 0;
      soc := 0;
      capacityRemaining := 0;
      capacityFull := CapacityFullMah;
      balancingActive := new bool[NumCells](_ => false);
      faultCode := {};
      log := [];
      new;
      UpdateMeasurements(r);
      UpdateSoc();
      CheckFaults();
      if faultCode == {} {
        state := StateIdle;
      } else {
        state := StateFault;
      }
    }

    /** bms_update_measurements: stores one sample of every sensor. */
    method UpdateMeasurements(r: Reading)
      requires Valid() && ReadingInRange(r)
      modifies cellVoltages, temperatures, this`current
      ensures Valid()
      ensures cellVoltages[..] == r.cells && temperatures[..] == r.temps && current == r.current
    {
      for i := 0 to NumCells
        invariant forall k :: 0 <= k < i ==> cellVoltages[k] == r.cells[k]
        invariant forall k :: i <= k < NumCells ==> cellVoltages[k] == old(cellVoltages[k])
        modifies cellVoltages
      {
        cellVoltages[i] := r.cells[i];
      }
      for i := 0 to NumTempSensors
        invariant forall k :: 0 <= k < i ==> temperatures[k] == r.temps[k]
        invariant forall k :: i <= k < NumTempSensors ==> temperatures[k] == old(temperatures[k])
        modifies temperatures
      {
        temperatures[i] := r.temps[i];
      }
      current := r.current;
    }

    /** Sum of the cell voltages, the pack voltage; twelve uint16 values
        never overflow the uint32 accumulator. */
    method SumCellVoltages() returns (sum: int)
      requires Valid()
      ensures sum == Sum(cellVoltages[..])
      ensures 0 <= sum < Uint32Modulus
    {
      ghost var v := cellVoltages[..];
      sum := 0;
      for i := 0 to NumCells
        invariant sum == Sum(v[..i])
      {
        assert v[..i + 1][..i] == v[..i];
        sum := sum + cellVoltages[i];
      }
      assert v[..NumCells] == v;
      SumLowerBound(v, 0);
      SumUpperBound(v, Uint16Max);
    }

    /** bms_update_soc: estimates the state of charge from the integer
        average cell voltage and derives the remaining capacity. */
    method UpdateSoc()
      requires Valid()
      modifies this`soc, this`capacityRemaining
      ensures Valid()
      ensures soc == SocOf(cellVoltages[..])
      ensures capacityRemaining == RemainingCapacity(capacityFull, soc)
    {
      var avgVoltage := SumCellVoltages();
      avgVoltage := avgVoltage / NumCells;

      if avgVoltage <= CellVoltageMin {
        soc := 0;
      } else if avgVoltage >= CellVoltageMax {
        soc := 100;
      } else {
        soc := (avgVoltage - CellVoltageMin) * 100 / (CellVoltageMax - CellVoltageMin);
      }

      capacityRemaining := (capacityFull * soc) % Uint32Modulus / 100;
      CapacityBounds(capacityFull, soc);
    }

    /** The per-cell scan of bms_check_faults: the lowest and highest cell
        and the cell undervoltage and overvoltage bits. */
    method ScanCells() returns (minVoltage: int, maxVoltage: int, faults: set<Fault>)
      requires Valid()
      ensures minVoltage == MinCell(cellVoltages[..]) && maxVoltage == MaxCell(cellVoltages[..])
      ensures faults == CellFaults(cellVoltages[..])
    {
      ghost var v := cellVoltages[..];
      faults := {};
      minVoltage := Uint16Max;
      maxVoltage := 0;
      for i := 0 to NumCells
        invariant minVoltage == MinCell(v[..i])
        invariant maxVoltage == MaxCell(v[..i])
        invariant faults == CellFaults(v[..i])
      {
        assert v[..i + 1][..i] == v[..i];
        CellFaultsStep(v, i);
        if cellVoltages[i] < minVoltage {
          minVoltage := cellVoltages[i];
        }
        if cellVoltages[i] > maxVoltage {
          maxVoltage := cellVoltages[i];
        }
        if cellVoltages[i] < CellVoltageMin {
          faults := faults + {CellUndervoltage};
        }
        if cellVoltages[i] > CellVoltageMax {
          faults := faults + {CellOvervoltage};
        }
      }
      assert v[..NumCells] == v;
    }

    /** The per-sensor scan of bms_check_faults: the under- and
        over-temperature bits. */
    method ScanTemperatures() returns (faults: set<Fault>)
      requires Valid()
      ensures faults == TempFaults(temperatures[..])
    {
      ghost var t := temperatures[..];
      faults := {};
      for i := 0 to NumTempSensors
        invariant faults == TempFaults(t[..i])
      {
        TempFaultsStep(t, i);
        if temperatures[i] < TempMin {
          faults := faults + {UnderTemperature};
        }
        if temperatures[i] > TempMax {
          faults := faults + {OverTemperature};
        }
      }
      assert t[..NumTempSensors] == t;
    }

    /** bms_check_faults: rebuilds the fault code from scratch from the
        stored readings. */
    method CheckFaults()
      requires Valid()
      modifies this`faultCode
      ensures Valid()
      ensures faultCode == FaultsOf(cellVoltages[..], temperatures[..], current)
    {
      ghost var v, t := cellVoltages[..], temperatures[..];
      var minVoltage, maxVoltage, newFaults := ScanCells();
      if maxVoltage - minVoltage > CellVoltageImbalance {
        newFaults := newFaults + {CellImbalance};
      }
      var packVoltage := SumCellVoltages();
      if packVoltage < PackVoltageMin {
        newFaults := newFaults + {PackUndervoltage};
      }
      if packVoltage > PackVoltageMax {
        newFaults := newFaults + {PackOvervoltage};
      }
      var temperatureFaults := ScanTemperatures();
      newFaults := newFaults + temperatureFaults;
      if current > OvercurrentLimit {
        newFaults := newFaults + {Overcurrent};
      }
      faultCode := newFaults;
      assert cellVoltages[..] == v && temperatures[..] == t;
    }

    /** The lowest and highest cell voltage, by the scan the state machine
        repeats in its IDLE and BALANCING cases. */
    method CellVoltageRange() returns (minVoltage: int, maxVoltage: int)
      requires Valid()
      ensures minVoltage == MinCell(cellVoltages[..]) && maxVoltage == MaxCell(cellVoltages[..])
    {
      ghost var v := cellVoltages[..];
      minVoltage := Uint16Max;
      maxVoltage := 0;
      for i := 0 to NumCells
        invariant minVoltage == MinCell(v[..i])
        invariant maxVoltage == MaxCell(v[..i])
      {
        assert v[..i + 1][..i] == v[..i];
        if cellVoltages[i] < minVoltage {
          minVoltage := cellVoltages[i];
        }
        if cellVoltages[i] > maxVoltage {
          maxVoltage := cellVoltages[i];
        }
      }
      assert v[..NumCells] == v;
    }

    /** The highest cell voltage, by the scan bms_perform_balancing makes. */
    method MaxCellVoltage() returns (maxVoltage: int)
      requires Valid()
      ensures maxVoltage == MaxCell(cellVoltages[..])
    {
      ghost var v := cellVoltages[..];
      maxVoltage := 0;
      for i := 0 to NumCells
        invariant maxVoltage == MaxCell(v[..i])
      {
        assert v[..i + 1][..i] == v[..i];
        if cellVoltages[i] > maxVoltage {
          maxVoltage := cellVoltages[i];
        }
      }
      assert v[..NumCells] == v;
    }

    /** bms_state_machine: one transition, with a raised fault taking
        priority over every other rule. */
    method StateMachine()
      requires Valid()
      modifies this`state
      ensures Valid()
      ensures state == NextState(old(state), faultCode, current, cellVoltages[..])
    {
      if faultCode != {} {
        state := StateFault;
        return;
      }

      if state == StateInit {
        state := StateIdle;
      } else if state == StateIdle {
        if current < -CurrentThreshold {
          state := StateCharging;
        } else if current > CurrentThreshold {
          state := StateDischarging;
        } else {
          var minVoltage, maxVoltage := CellVoltageRange();
          if maxVoltage > CellVoltageBalance && maxVoltage - minVoltage > CellVoltageImbalance {
            state := StateBalancing;
          }
        }
      } else if state == StateCharging {
        if current > -CurrentThreshold {
          state := StateIdle;
        }
      } else if state == StateDischarging {
        if current < CurrentThreshold {
          state := StateIdle;
        }
      } else if state == StateBalancing {
        var minVoltage, maxVoltage := CellVoltageRange();
        if maxVoltage <= CellVoltageBalance || maxVoltage - minVoltage <= CellVoltageImbalance {
          state := StateIdle;
        } else if current < -CurrentThreshold {
          state := StateCharging;
        }
      } else if state == StateFault {
        if faultCode == {} {
          state := StateIdle;
        }
      } else {
        // an invalid state is reset to INIT
        state := StateInit;
      }
    }

    /** Clears every balancing flag that is set, issuing one switch-off call
        per cleared flag. */
    method SwitchAllOff()
      requires Valid()
      modifies balancingActive, this`log
      ensures Valid()
      ensures balancingActive[..] == seq(NumCells, _ => false)
      ensures log == old(log) + SwitchEvents(old(balancingActive[..]), balancingActive[..], NumCells)
    {
      ghost var before := balancingActive[..];
      ghost var target: seq<bool> := seq(NumCells, _ => false);
      for i := 0 to NumCells
        invariant forall k :: 0 <= k < i ==> balancingActive[k] == target[k]
        invariant forall k :: i <= k < NumCells ==> balancingActive[k] == before[k]
        invariant log == old(log) + SwitchEvents(before, target, i)
      {
        if balancingActive[i] {
          balancingActive[i] := false;
          log := log + [BalanceSwitch(i, false)];
        }
      }
      assert balancingActive[..] == target;
    }

    /** bms_perform_balancing: sets each cell's balancing flag to its target
        and calls the cell's switch only when the flag changes. */
    method PerformBalancing()
      requires Valid()
      modifies balancingActive, this`log
      ensures Valid()
      ensures balancingActive[..] == BalanceTarget(state, cellVoltages[..])
      ensures log == old(log) + SwitchEvents(old(balancingActive[..]), balancingActive[..], NumCells)
      ensures old(balancingActive[..]) == BalanceTarget(state, cellVoltages[..]) ==> log == old(log)
    {
      ghost var before := balancingActive[..];
      if state != StateCharging && state != StateBalancing {
        SwitchAllOff();
        SwitchEventsUnchanged(before, NumCells);
        return;
      }

      var maxVoltage := MaxCellVoltage();
      if maxVoltage < CellVoltageBalance {
        SwitchAllOff();
        SwitchEventsUnchanged(before, NumCells);
        return;
      }

      ghost var target := BalanceTarget(state, cellVoltages[..]);
      for i := 0 to NumCells
        invariant forall k :: 0 <= k < i ==> balancingActive[k] == target[k]
        invariant forall k :: i <= k < NumCells ==> balancingActive[k] == before[k]
        invariant log == old(log) + SwitchEvents(before, target, i)
      {
        var shouldBalance := cellVoltages[i] > CellVoltageBalance
                             && cellVoltages[i] > maxVoltage - CellVoltageImbalance;
        assert shouldBalance == target[i];
        if shouldBalance != balancingActive[i] {
          balancingActive[i] := shouldBalance;
          log := log + [BalanceSwitch(i, shouldBalance)];
        }
      }
      assert balancingActive[..] == target;
      SwitchEventsUnchanged(before, NumCells);
    }

    /** bms_control_outputs: drives the charger and discharge enables from
        the state, charger first. */
    method ControlOutputs()
      modifies this`log
      ensures log == old(log) + OutputEvents(state)
    {
      if state == StateInit || state == StateFault {
        log := log + [ChargerEnable(false), DischargeEnable(false)];
      } else if state == StateIdle || state == StateBalancing {
        log := log + [ChargerEnable(true), DischargeEnable(true)];
      } else if state == StateCharging {
        log := log + [ChargerEnable(true), DischargeEnable(false)];
      } else if state == StateDischarging {
        log := log + [ChargerEnable(false), DischargeEnable(true)];
      } else {
        // safety default: disable both
        log := log + [ChargerEnable(false), DischargeEnable(false)];
      }
    }

    /** The record holds reading `r` and everything a main-loop iteration
        derives from it: its state of charge and capacity, its faults, and
        the balancing flags for the current state. */
    ghost predicate Reflects(r: Reading)
      reads this, cellVoltages, temperatures, balancingActive
    {
      && CellsInRange(r.cells) && 0 <= capacityFull < Uint32Modulus && 0 <= soc
      && cellVoltages[..] == r.cells && temperatures[..] == r.temps && current == r.current
      && soc == SocOf(r.cells) && capacityRemaining == RemainingCapacity(capacityFull, soc)
      && faultCode == FaultsOf(r.cells, r.temps, r.current)
      && balancingActive[..] == BalanceTarget(state, r.cells)
    }

    /** One iteration of the main loop: read the sensors, estimate the
        charge, check faults, run the state machine, balance, and drive the
        outputs. */
    method Step(r: Reading)
      requires Valid() && ReadingInRange(r)
      modifies this, cellVoltages, temperatures, balancingActive
      ensures Valid()
      ensures state == StepState(old(state), r)
      ensures Reflects(r)
      ensures log == old(log)
        + SwitchEvents(old(balancingActive[..]), balancingActive[..], NumCells)
        + OutputEvents(state)
    {
      UpdateMeasurements(r);
      UpdateSoc();
      CheckFaults();
      StateMachine();
      PerformBalancing();
      ControlOutputs();
    }

    /** The main loop run over a finite sequence of readings, one iteration
        per reading. */
    method Run(rs: seq<Reading>)
      requires Valid()
      requires forall k :: 0 <= k < |rs| ==> ReadingInRange(rs[k])
      modifies this, cellVoltages, temperatures, balancingActive
      ensures Valid()
      ensures state == StateAfter(old(state), rs)
      ensures Operational(old(state)) ==> Operational(state)
      ensures |rs| == 0 ==>
        && cellVoltages[..] == old(cellVoltages[..]) && temperatures[..] == old(temperatures[..])
        && current == old(current) && soc == old(soc) && capacityRemaining == old(capacityRemaining)
        && faultCode == old(faultCode) && balancingActive[..] == old(balancingActive[..])
        && log == old(log)
      ensures |rs| > 0 ==> Reflects(rs[|rs| - 1])
      ensures old(log) <= log
      ensures |rs| > 0 ==> |old(log)| + 2 <= |log| && log[|log| - 2..] == OutputEvents(state)
    {
      if |rs| == 0 {
        return;
      }
      for i := 0 to |rs|
        invariant Valid()
        invariant state == StateAfter(old(state), rs[..i])
        invariant i > 0 ==> Reflects(rs[i - 1])
        invariant old(log) <= log
        invariant i > 0 ==> |old(log)| + 2 <= |log| && log[|log| - 2..] == OutputEvents(state)
      {
        assert rs[..i + 1][..i] == rs[..i];
        Step(rs[i]);
      }
      assert rs[..|rs|] == rs;
      if Operational(old(state)) {
        RunStaysOperational(old(state), rs);
      }
    }
  }
}
