# Battery-management system for an electric-vehicle pack

This project models the battery-management controller in
`input/code_extractor_repo/BMS_EV/bms-code.c` and proves properties of it.
The controller keeps one record, `bms_data_t`, for a pack of 12 cells with
8 temperature sensors and one current sensor. Each main-loop iteration
updates the record in place:

1. read the sensors;
2. estimate the state of charge and the remaining capacity;
3. rebuild the fault code;
4. run the six-state state machine;
5. switch the per-cell balancing resistors;
6. drive the charger and discharge enables.

The project has three modules:

- `BmsSpec` (`bms_spec.dfy`) holds the configuration constants and the
  state and fault encodings. It also has one specification function per
  per-cycle operation, saying what the operation computes from the sensor
  readings and the previous state.
- `BmsProperties` (`bms_properties.dfy`) holds the lemmas about those
  functions:
  - state-of-charge bounds and monotonicity;
  - capacity bounds;
  - the exact condition for each fault;
  - pack faults implying cell faults;
  - the states that sequences of loop iterations can reach;
  - output safety;
  - the balancing switch protocol.
- `Bms` (`bms.dfy`) holds the class `BatteryManager`. Its fields are those
  of `bms_data_t`. The cell voltages, temperatures and balancing flags are
  fixed-size arrays. Each C function is a method that updates the fields
  in place with the same loops and branches. Each method is proved
  against the matching specification function. The hardware switch calls
  are appended to a ghost log of `Event` values, in the order the C code
  makes them.

Representation choices:

- The state is an `int` with the enumeration's values 0..5. This keeps the
  `default` branches of both switches (an invalid state resets to INIT and
  disables both outputs) in the model.
- `fault_code` is held as the set of raised faults. `FaultCode` turns that
  set into the `uint8` byte, using the bit values of `fault_code_t`. Lemma
  `FaultCodeEncodes` proves the encoding is faithful: each fault's bit is
  set exactly when that fault is raised, and the byte is `FAULT_NONE`
  exactly when the set is empty. Every comparison with `FAULT_NONE` in the
  C code is therefore a test for the empty set.
- Sensor readings arrive as a `Reading` value whose ranges match the C
  field types (`uint16` cells, `int8` temperatures, `int32` current).
- `capacity_full * soc` is computed in 32-bit unsigned arithmetic, and the
  model writes that wrap-around out.
- One main-loop iteration is `Step`. A finite prefix of the endless loop
  is `Run`. The function `StateAfter` describes sequences of iterations
  for the cross-step lemmas.

A design observation the proofs bring out: the main loop checks faults
before it runs the state machine. Any cell spread above 50 mV that would
enter or keep BALANCING therefore already raises `FAULT_CELL_IMBALANCE`,
and the state machine goes to FAULT instead. So no loop iteration ever ends
in BALANCING (`StepNeverBalancing`, `RunFromInitNeverBalancing`). Balancing
resistors are switched on only while CHARGING
(`StepBalancesOnlyWhileCharging`).

## Model

| member | source | states |
|---|---|---|
| BmsSpec.SocFromAverage | input/code_extractor_repo/BMS_EV/bms-code.c:169-176 | the state of charge is within 0..100. It is 100 exactly when the average is at least 4200 mV. It is 0 exactly when the average is below the first 1 % step above 2800 mV. |
| BmsSpec.AverageCellVoltage | input/code_extractor_repo/BMS_EV/bms-code.c:163-167 | the integer average of the twelve cell voltages: their sum divided by 12, rounded down. AverageInRange bounds it. |
| BmsSpec.SocOf | input/code_extractor_repo/BMS_EV/bms-code.c:163-176 | the state of charge of a set of cell voltages: SocFromAverage of their integer average. SocMonotoneInCells says it is monotone. |
| BmsSpec.RemainingCapacity | input/code_extractor_repo/BMS_EV/bms-code.c:179 | the remaining capacity: the product of the full capacity and soc, reduced modulo 2^32, then divided by 100. CapacityBounds and CapacityMonotone state its bounds. |
| BmsSpec.MaxCell | input/code_extractor_repo/BMS_EV/bms-code.c:234-242 | the value of the highest-cell scan that starts from 0. MaxCellIsMaximum says it is the maximum. |
| BmsSpec.MinCell | input/code_extractor_repo/BMS_EV/bms-code.c:233-239 | the value of the lowest-cell scan that starts from UINT16_MAX. MinCellIsMinimum says it is the minimum. |
| BmsSpec.CellFaults | input/code_extractor_repo/BMS_EV/bms-code.c:244-250 | the faults the per-cell loop raises: cell undervoltage if some cell is below 2800 mV, and cell overvoltage if some cell is above 4200 mV |
| BmsSpec.TempFaults | input/code_extractor_repo/BMS_EV/bms-code.c:272-279 | the faults the per-sensor loop raises: under-temperature if some sensor is below 0 °C, and over-temperature if some sensor is above 45 °C |
| BmsSpec.FaultsOf | input/code_extractor_repo/BMS_EV/bms-code.c:229-288 | the fault set bms_check_faults builds from scratch from one set of readings. VoltageFaultConditions, TemperatureCurrentFaultConditions and FaultsOfNone state when each fault is raised. |
| BmsSpec.NextState | input/code_extractor_repo/BMS_EV/bms-code.c:291-386 | one transition of bms_state_machine: a raised fault gives FAULT; otherwise the rules for INIT, IDLE, CHARGING, DISCHARGING, BALANCING and FAULT apply, and an invalid state resets to INIT. StepEntryConditions, FaultClearsToIdle and StepNeverBalancing state its consequences. |
| BmsSpec.InitialState | input/code_extractor_repo/BMS_EV/bms-code.c:135-139 | the state bms_init ends in: IDLE when the first readings raise no fault, else FAULT |
| BmsSpec.StepState | input/code_extractor_repo/BMS_EV/bms-code.c:99-102 | the state after one loop iteration: the transition under the faults of that iteration's readings |
| BmsSpec.StateAfter | input/code_extractor_repo/BMS_EV/bms-code.c:91-117 | the state after a finite sequence of loop iterations. RunStaysOperational and RunFromInitNeverBalancing state which states it can take. |
| BmsSpec.BalanceTarget | input/code_extractor_repo/BMS_EV/bms-code.c:183-226 | the balancing flags after one pass, one per cell. All are off outside CHARGING and BALANCING or when the highest cell is below 3900 mV. Otherwise a cell is on iff it is above 3900 mV and within 50 mV of the highest cell. BalanceTargetSelectsTopCells and BalanceTargetIncludesHighest state its properties. |
| BmsSpec.SwitchEvents | input/code_extractor_repo/BMS_EV/bms-code.c:217-225 | the set_balance_switch calls that take the flags from their old to their new values, one per changed cell, in cell order. SwitchEventsExact, SwitchEventsOrdered and SwitchEventsUnchanged state this. |
| BmsSpec.OutputEvents | input/code_extractor_repo/BMS_EV/bms-code.c:389-423 | the two calls bms_control_outputs makes: the charger enable, then the discharge enable, with the values OutputsFor gives |
| BmsSpec.OutputsFor | input/code_extractor_repo/BMS_EV/bms-code.c:389-423 | the charger is enabled iff the state is IDLE, BALANCING or CHARGING. Discharge is enabled iff the state is IDLE, BALANCING or DISCHARGING. INIT, FAULT and invalid states disable both. |
| BmsProperties.AverageInRange | input/code_extractor_repo/BMS_EV/bms-code.c:163-167 | the integer average of twelve uint16 cell voltages is itself a uint16 value, so the uint32 accumulator never wraps |
| BmsProperties.SocMonotone | input/code_extractor_repo/BMS_EV/bms-code.c:169-176 | a higher average cell voltage never gives a lower state of charge |
| BmsProperties.SocMonotoneInCells | input/code_extractor_repo/BMS_EV/bms-code.c:163-176 | raising any cell voltages never lowers the state of charge |
| BmsProperties.CapacityBounds | input/code_extractor_repo/BMS_EV/bms-code.c:179 | when 100 times the full capacity fits in uint32, the remaining capacity is between 0 and the full capacity. It is 0 at 0 % and the full capacity at 100 %. |
| BmsProperties.CapacityMonotone | input/code_extractor_repo/BMS_EV/bms-code.c:179 | a higher state of charge never gives less remaining capacity |
| BmsProperties.SumLowerBound | input/code_extractor_repo/BMS_EV/bms-code.c:259-262 | values that are each at least lo sum to at least lo times their count |
| BmsProperties.SumUpperBound | input/code_extractor_repo/BMS_EV/bms-code.c:259-262 | values that are each at most hi sum to at most hi times their count |
| BmsProperties.SumMonotone | input/code_extractor_repo/BMS_EV/bms-code.c:163-166 | the pack sum is monotone in every cell voltage |
| BmsProperties.FaultCodeEncodes | input/code_extractor_repo/BMS_EV/bms-code.c:43-53 | each fault's bit is set in the fault code byte exactly when that fault is raised. The byte is FAULT_NONE exactly when no fault is raised. |
| BmsProperties.FaultCodeBit | input/code_extractor_repo/BMS_EV/bms-code.c:43-53 | masking the fault code with one fault's bit gives that bit if the fault is raised, and 0 otherwise |
| BmsProperties.VoltageFaultConditions | input/code_extractor_repo/BMS_EV/bms-code.c:236-269 | cell undervoltage is raised iff some cell is below 2800 mV, and cell overvoltage iff some cell is above 4200 mV. Imbalance is raised iff max − min > 50 mV. Pack under- and overvoltage are raised iff the sum is below 33600 or above 50400 mV. |
| BmsProperties.TemperatureCurrentFaultConditions | input/code_extractor_repo/BMS_EV/bms-code.c:271-284 | under-temperature is raised iff some sensor is below 0 °C, and over-temperature iff some sensor is above 45 °C. Overcurrent is raised iff the current is above 100000 mA. |
| BmsProperties.FaultsOfNone | input/code_extractor_repo/BMS_EV/bms-code.c:229-288 | the fault code is FAULT_NONE exactly when every check passes |
| BmsProperties.PackUndervoltageImpliesCellUndervoltage | input/code_extractor_repo/BMS_EV/bms-code.c:245-266 | with twelve cells, the pack-undervoltage fault implies the cell-undervoltage fault |
| BmsProperties.PackOvervoltageImpliesCellOvervoltage | input/code_extractor_repo/BMS_EV/bms-code.c:248-269 | with twelve cells, the pack-overvoltage fault implies the cell-overvoltage fault |
| BmsProperties.MaxCellIsMaximum | input/code_extractor_repo/BMS_EV/bms-code.c:234-242 | the scan that starts from 0 returns an upper bound of every cell. The bound is one of the cells or the start value. |
| BmsProperties.MinCellIsMinimum | input/code_extractor_repo/BMS_EV/bms-code.c:233-239 | the scan that starts from UINT16_MAX returns a lower bound of every cell. The bound is one of the cells or the start value. |
| BmsProperties.CellFaultsStep | input/code_extractor_repo/BMS_EV/bms-code.c:244-250 | scanning one more cell adds exactly that cell's under- and overvoltage faults |
| BmsProperties.TempFaultsStep | input/code_extractor_repo/BMS_EV/bms-code.c:272-279 | scanning one more sensor adds exactly that sensor's under- and over-temperature faults |
| BmsProperties.SpreadExceedsIff | input/code_extractor_repo/BMS_EV/bms-code.c:253-256 | for in-range cells, max − min > d iff some pair of cells differs by more than d |
| BmsProperties.StepFaultIff | input/code_extractor_repo/BMS_EV/bms-code.c:99-102 | a loop iteration ends in FAULT iff its readings raise a fault, whatever the state before |
| BmsProperties.StepNeverBalancing | input/code_extractor_repo/BMS_EV/bms-code.c:328-331 | no loop iteration ends in BALANCING, because a spread above 50 mV already raises the imbalance fault |
| BmsProperties.StepPreservesOperational | input/code_extractor_repo/BMS_EV/bms-code.c:291-386 | from IDLE, CHARGING, DISCHARGING or FAULT, one loop iteration ends in one of those four states |
| BmsProperties.RunStaysOperational | input/code_extractor_repo/BMS_EV/bms-code.c:91-117 | any number of loop iterations from one of those four states ends in one of them |
| BmsProperties.RunFromInitNeverBalancing | input/code_extractor_repo/BMS_EV/bms-code.c:86-117 | after bms_init and any number of loop iterations, the state is one of those four and never BALANCING or INIT |
| BmsProperties.StepEntryConditions | input/code_extractor_repo/BMS_EV/bms-code.c:305-347 | CHARGING is entered only from IDLE with current below −500 mA. DISCHARGING is entered only from IDLE with current above 500 mA. CHARGING and DISCHARGING never switch directly into each other. |
| BmsProperties.FaultClearsToIdle | input/code_extractor_repo/BMS_EV/bms-code.c:374-379 | FAULT is left only for IDLE, and exactly when the new readings raise no fault |
| BmsProperties.StepOutputsSafe | input/code_extractor_repo/BMS_EV/bms-code.c:389-423 | a raised fault disables both the charger and discharge at the end of the iteration. Both are enabled together only in IDLE. |
| BmsProperties.BalanceTargetSelectsTopCells | input/code_extractor_repo/BMS_EV/bms-code.c:183-226 | a cell is bled only while CHARGING or BALANCING, and only when it is above 3900 mV and within 50 mV of the highest cell |
| BmsProperties.BalanceTargetIncludesHighest | input/code_extractor_repo/BMS_EV/bms-code.c:216-225 | while CHARGING or BALANCING with the highest cell above 3900 mV, a highest cell is bled |
| BmsProperties.StepBalancesOnlyWhileCharging | input/code_extractor_repo/BMS_EV/bms-code.c:99-105 | after a loop iteration, a cell is bled only if the state is CHARGING |
| BmsProperties.SwitchEventsUnchanged | input/code_extractor_repo/BMS_EV/bms-code.c:221-224 | flags that do not change produce no switch call |
| BmsProperties.SwitchEventsExact | input/code_extractor_repo/BMS_EV/bms-code.c:221-224 | every switch call is for a cell whose flag changed and carries the new value. Every changed cell gets a call. |
| BmsProperties.SwitchEventsOrdered | input/code_extractor_repo/BMS_EV/bms-code.c:217-225 | the switch calls of one pass go out in strictly increasing cell order, so each cell is switched at most once |
| Bms.BatteryManager.constructor | input/code_extractor_repo/BMS_EV/bms-code.c:123-140 | the record holds the first readings and capacity_full = 50000 mAh. The state of charge, capacity and fault code are those of the readings. The state is IDLE iff no fault is raised, else FAULT. All flags are off and no switch was called. |
| Bms.BatteryManager.UpdateMeasurements | input/code_extractor_repo/BMS_EV/bms-code.c:143-156 | the arrays and the current hold exactly the new readings |
| Bms.BatteryManager.SumCellVoltages | input/code_extractor_repo/BMS_EV/bms-code.c:259-262 | the accumulation loop returns the sum of the cell voltages, and the sum fits a uint32, so the C accumulator never wraps |
| Bms.BatteryManager.UpdateSoc | input/code_extractor_repo/BMS_EV/bms-code.c:159-180 | soc is the state of charge of the stored cells, and capacity_remaining is the uint32 capacity formula for it. The record invariant (soc ≤ 100, remaining ≤ full) is kept. |
| Bms.BatteryManager.ScanCells | input/code_extractor_repo/BMS_EV/bms-code.c:236-251 | the fused scan returns the lowest cell, the highest cell and the per-cell voltage faults |
| Bms.BatteryManager.ScanTemperatures | input/code_extractor_repo/BMS_EV/bms-code.c:272-279 | the scan returns the per-sensor temperature faults |
| Bms.BatteryManager.CheckFaults | input/code_extractor_repo/BMS_EV/bms-code.c:229-288 | the fault code is rebuilt from scratch: it equals the faults of the stored readings, with no bit kept from before |
| Bms.BatteryManager.CellVoltageRange | input/code_extractor_repo/BMS_EV/bms-code.c:316-326 | the scan returns the lowest and the highest cell voltage |
| Bms.BatteryManager.MaxCellVoltage | input/code_extractor_repo/BMS_EV/bms-code.c:197-202 | the scan returns the highest cell voltage |
| Bms.BatteryManager.StateMachine | input/code_extractor_repo/BMS_EV/bms-code.c:291-386 | the new state is the transition of the old state under the fault code, the current and the cells. A raised fault takes priority, and an invalid state resets to INIT. |
| Bms.BatteryManager.SwitchAllOff | input/code_extractor_repo/BMS_EV/bms-code.c:186-192 | every flag ends off, and exactly the flags that were on get a switch-off call, in cell order |
| Bms.BatteryManager.PerformBalancing | input/code_extractor_repo/BMS_EV/bms-code.c:183-226 | the flags become the balancing target for the state and cells. The log grows by exactly the switch calls for the changed flags. When the flags were already on target, nothing is logged, so a second pass is silent. |
| Bms.BatteryManager.ControlOutputs | input/code_extractor_repo/BMS_EV/bms-code.c:389-423 | one charger call and then one discharge call are logged, with the enables for the state |
| Bms.BatteryManager.Step | input/code_extractor_repo/BMS_EV/bms-code.c:93-108 | one loop iteration stores the readings and sets soc, capacity and fault code from them. The state moves one transition. The flags become the balancing target. The log grows by the balancing calls followed by the output calls. |
| Bms.BatteryManager.Run | input/code_extractor_repo/BMS_EV/bms-code.c:91-117 | after any number of iterations the state is StateAfter of the readings, and a running state stays running. With no readings the record and the log are unchanged. Otherwise the record holds the last reading and everything derived from it (soc, capacity, faults, balancing flags), and the log extends the old log and ends with the output calls for the final state. |

## Left out

- The simulated ADC readers `adc_read_cell_voltage`, `adc_read_temperature` and `adc_read_current` (bms-code.c:430-473) are not modelled. They draw values from `rand()` and keep a function-static toggle. Their values enter the model as `Reading` inputs with the ranges of the C return types.
- The `printf` bodies of `set_balance_switch`, `set_charger_enable` and `set_discharge_enable` (bms-code.c:475-488) are console output. Each call is recorded as an `Event` in the ghost log instead.
- The status `printf` in the main loop (bms-code.c:111-112) is console output and is left out.
- The endless `while (1)` loop (bms-code.c:91-117) cannot be a terminating method. `Step` models one iteration, and `Run` models any finite prefix of the loop.
- `ADC_RESOLUTION` and `ADC_REFERENCE_VOLTAGE` (bms-code.c:29-30) are defined but never used anywhere in the file, so they have no counterpart.
- `memset` in `bms_init` is modelled by initialising every field to zero or false. Padding bytes of the struct have no counterpart.
- BmsProperties.CapacityBounds: requires `capacity_full * 100` to fit in 32 bits. Beyond that the uint32 product wraps and the bound fails. The model computes the wrap, and the record's capacity of 50000 mAh meets the requirement.
- The Python code-extraction, research and user-interface modules of the repository are not part of this model. They are wrappers around external language-model and web services.
