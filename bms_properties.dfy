/** Properties of the battery-management specification: bounds and
    monotonicity of the state-of-charge estimate, consistency between the
    pack and cell faults, the states reachable by the main loop, the
    safety of the output table, and the balancing switch protocol. */
module BmsProperties {
  import opened BmsSpec

  // ---------------------------------------------------------------------
  // Sums
  // ---------------------------------------------------------------------

  /** A sum of values that are all at least `lo` is at least `lo` times the length. */
  lemma {:induction false} SumLowerBound(s: seq<int>, lo: int)
    requires forall k :: 0 <= k < |s| ==> lo <= s[k]
    ensures lo * |s| <= Sum(s)
  {
    if |s| > 0 {
      SumLowerBound(s[..|s| - 1], lo);
      assert lo * |s| == lo * (|s| - 1) + lo;
    }
  }

  /** A sum of values that are all at most `hi` is at most `hi` times the length. */
  lemma {:induction false} SumUpperBound(s: seq<int>, hi: int)
    requires forall k :: 0 <= k < |s| ==> s[k] <= hi
    ensures Sum(s) <= hi * |s|
  {
    if |s| > 0 {
      SumUpperBound(s[..|s| - 1], hi);
      assert hi * |s| == hi * (|s| - 1) + hi;
    }
  }

  /** The sum is monotone in every element. */
  lemma {:induction false} SumMonotone(v: seq<int>, w: seq<int>)
    requires |v| == |w|
    requires forall k :: 0 <= k < |v| ==> v[k] <= w[k]
    ensures Sum(v) <= Sum(w)
  {
    if |v| > 0 {
      SumMonotone(v[..|v| - 1], w[..|w| - 1]);
    }
  }

  // ---------------------------------------------------------------------
  // State of charge and remaining capacity
  // ---------------------------------------------------------------------

  /** The average of in-range cells is itself a uint16 voltage. */
  lemma AverageInRange(v: seq<int>)
    requires CellsInRange(v)
    ensures 0 <= AverageCellVoltage(v) <= Uint16Max
  {
    SumLowerBound(v, 0);
    SumUpperBound(v, Uint16Max);
  }

  /** A higher average cell voltage never gives a lower state of charge. */
  lemma SocMonotone(a: int, b: int)
    requires a <= b
    ensures SocFromAverage(a) <= SocFromAverage(b)
  {
    if CellVoltageMin < a && b < CellVoltageMax {
      assert (a - CellVoltageMin) * 100 / 1400 <= (b - CellVoltageMin) * 100 / 1400;
    }
  }

  /** Raising any cell voltage never lowers the state of charge. */
  lemma SocMonotoneInCells(v: seq<int>, w: seq<int>)
    requires CellsInRange(v) && CellsInRange(w)
    requires forall k :: 0 <= k < NumCells ==> v[k] <= w[k]
    ensures SocOf(v) <= SocOf(w)
  {
    SumMonotone(v, w);
    SumLowerBound(v, 0);
    assert Sum(v) / 12 <= Sum(w) / 12;
    SocMonotone(AverageCellVoltage(v), AverageCellVoltage(w));
  }

  /** With a capacity whose hundredfold fits in uint32 the product does not
      wrap, so the remaining capacity never exceeds the full capacity, is
      empty at 0 % and full at 100 %. */
  lemma CapacityBounds(full: int, soc: int)
    requires 0 <= full && full * 100 < Uint32Modulus
    requires 0 <= soc <= 100
    ensures 0 <= RemainingCapacity(full, soc) <= full
    ensures soc == 0 ==> RemainingCapacity(full, soc) == 0
    ensures soc == 100 ==> RemainingCapacity(full, soc) == full
  {
    ProductBelow(full, soc);
    assert (full * soc) % Uint32Modulus == full * soc;
  }

  lemma ProductBelow(full: int, soc: int)
    requires 0 <= full && 0 <= soc <= 100
    ensures 0 <= full * soc <= full * 100
  {
  }

  /** A higher state of charge never gives less remaining capacity. */
  lemma CapacityMonotone(full: int, soc1: int, soc2: int)
    requires 0 <= full && full * 100 < Uint32Modulus
    requires 0 <= soc1 <= soc2 <= 100
    ensures RemainingCapacity(full, soc1) <= RemainingCapacity(full, soc2)
  {
    ProductBelow(full, soc1);
    ProductBelow(full, soc2);
    assert full * soc1 <= full * soc2;
    assert (full * soc1) % Uint32Modulus == full * soc1;
    assert (full * soc2) % Uint32Modulus == full * soc2;
  }

  // ---------------------------------------------------------------------
  // Fault bits
  // ---------------------------------------------------------------------

  /** The fault code byte encodes the set of raised faults faithfully:
      each fault's bit is set exactly when that fault is raised, and the
      code is FAULT_NONE exactly when no fault is raised. */
  lemma FaultCodeEncodes(faults: set<Fault>)
    ensures forall f: Fault :: FaultCode(faults) & Bit(f) != FaultNone <==> f in faults
    ensures FaultCode(faults) == FaultNone <==> faults == {}
  {
    forall f: Fault
      ensures FaultCode(faults) & Bit(f) != FaultNone <==> f in faults
    {
      FaultCodeBit(faults, f);
    }
    if faults != {} {
      var f :| f in faults;
      assert FaultCode(faults) & Bit(f) != FaultNone;
    }
  }

  /** Masking the fault code with one fault's bit leaves that bit alone. */
  lemma FaultCodeBit(faults: set<Fault>, f: Fault)
    ensures FaultCode(faults) & Bit(f) == if f in faults then Bit(f) else FaultNone
  {
    PackBitsSeparate(
      CellUndervoltage in faults, CellOvervoltage in faults,
      PackUndervoltage in faults, PackOvervoltage in faults,
      OverTemperature in faults, UnderTemperature in faults,
      Overcurrent in faults, CellImbalance in faults);
  }

  /** The eight flags land on eight separate bits. */
  lemma PackBitsSeparate(b0: bool, b1: bool, b2: bool, b3: bool, b4: bool, b5: bool, b6: bool, b7: bool)
    ensures var p := PackBits(b0, b1, b2, b3, b4, b5, b6, b7);
      && p & Bit(CellUndervoltage) == (if b0 then Bit(CellUndervoltage) else FaultNone)
      && p & Bit(CellOvervoltage) == (if b1 then Bit(CellOvervoltage) else FaultNone)
      && p & Bit(PackUndervoltage) == (if b2 then Bit(PackUndervoltage) else FaultNone)
      && p & Bit(PackOvervoltage) == (if b3 then Bit(PackOvervoltage) else FaultNone)
      && p & Bit(OverTemperature) == (if b4 then Bit(OverTemperature) else FaultNone)
      && p & Bit(UnderTemperature) == (if b5 then Bit(UnderTemperature) else FaultNone)
      && p & Bit(Overcurrent) == (if b6 then Bit(Overcurrent) else FaultNone)
      && p & Bit(CellImbalance) == (if b7 then Bit(CellImbalance) else FaultNone)
  {
  }

  /** Each voltage fault is raised exactly when its condition holds. */
  lemma VoltageFaultConditions(v: seq<int>, t: seq<int>, current: int)
    ensures var f := FaultsOf(v, t, current);
      && (CellUndervoltage in f <==> SomeBelow(v, CellVoltageMin))
      && (CellOvervoltage in f <==> SomeAbove(v, CellVoltageMax))
      && (CellImbalance in f <==> Spread(v) > CellVoltageImbalance)
      && (PackUndervoltage in f <==> Sum(v) < PackVoltageMin)
      && (PackOvervoltage in f <==> Sum(v) > PackVoltageMax)
  {
  }

  /** Each temperature and current fault is raised exactly when its
      condition holds. */
  lemma TemperatureCurrentFaultConditions(v: seq<int>, t: seq<int>, current: int)
    ensures var f := FaultsOf(v, t, current);
      && (UnderTemperature in f <==> SomeBelow(t, TempMin))
      && (OverTemperature in f <==> SomeAbove(t, TempMax))
      && (Overcurrent in f <==> current > OvercurrentLimit)
  {
  }

  /** The fault code is FAULT_NONE exactly when no check fails. */
  lemma FaultsOfNone(v: seq<int>, t: seq<int>, current: int)
    ensures FaultsOf(v, t, current) == {} <==>
      && !SomeBelow(v, CellVoltageMin) && !SomeAbove(v, CellVoltageMax)
      && Spread(v) <= CellVoltageImbalance
      && PackVoltageMin <= Sum(v) <= PackVoltageMax
      && !SomeBelow(t, TempMin) && !SomeAbove(t, TempMax)
      && current <= OvercurrentLimit
  {
    VoltageFaultConditions(v, t, current);
    TemperatureCurrentFaultConditions(v, t, current);
    var f := FaultsOf(v, t, current);
    if f != {} {
      var g :| g in f;
    }
  }

  /** Pack undervoltage implies cell undervoltage: twelve cells at or above
      the minimum sum to at least twelve times the minimum. */
  lemma PackUndervoltageImpliesCellUndervoltage(v: seq<int>, t: seq<int>, current: int)
    requires |v| == NumCells
    ensures PackUndervoltage in FaultsOf(v, t, current)
        ==> CellUndervoltage in FaultsOf(v, t, current)
  {
    VoltageFaultConditions(v, t, current);
    if !SomeBelow(v, CellVoltageMin) {
      SumLowerBound(v, CellVoltageMin);
    }
  }

  /** Pack overvoltage implies cell overvoltage. */
  lemma PackOvervoltageImpliesCellOvervoltage(v: seq<int>, t: seq<int>, current: int)
    requires |v| == NumCells
    ensures PackOvervoltage in FaultsOf(v, t, current)
        ==> CellOvervoltage in FaultsOf(v, t, current)
  {
    VoltageFaultConditions(v, t, current);
    if !SomeAbove(v, CellVoltageMax) {
      SumUpperBound(v, CellVoltageMax);
    }
  }

  /** The scan for the highest cell finds an upper bound of every cell that
      is either one of the cells or the starting value 0. */
  lemma {:induction false} MaxCellIsMaximum(v: seq<int>)
    ensures forall k :: 0 <= k < |v| ==> v[k] <= MaxCell(v)
    ensures MaxCell(v) == 0 || MaxCell(v) in v
  {
    if |v| > 0 {
      MaxCellIsMaximum(v[..|v| - 1]);
      assert forall k :: 0 <= k < |v| - 1 ==> v[..|v| - 1][k] == v[k];
    }
  }

  /** The scan for the lowest cell finds a lower bound of every cell that
      is either one of the cells or the starting value UINT16_MAX. */
  lemma {:induction false} MinCellIsMinimum(v: seq<int>)
    ensures forall k :: 0 <= k < |v| ==> MinCell(v) <= v[k]
    ensures MinCell(v) == Uint16Max || MinCell(v) in v
  {
    if |v| > 0 {
      MinCellIsMinimum(v[..|v| - 1]);
      assert forall k :: 0 <= k < |v| - 1 ==> v[..|v| - 1][k] == v[k];
    }
  }

  /** Extending a scanned prefix of the cells by one cell adds that cell's
      undervoltage and overvoltage bits. */
  lemma CellFaultsStep(v: seq<int>, i: int)
    requires 0 <= i < |v|
    ensures CellFaults(v[..i + 1]) == CellFaults(v[..i])
      + RaiseIf(v[i] < CellVoltageMin, CellUndervoltage)
      + RaiseIf(v[i] > CellVoltageMax, CellOvervoltage)
  {
    assert v[..i + 1][i] == v[i];
    assert SomeBelow(v[..i + 1], CellVoltageMin) <==> SomeBelow(v[..i], CellVoltageMin) || v[i] < CellVoltageMin;
    assert SomeAbove(v[..i + 1], CellVoltageMax) <==> SomeAbove(v[..i], CellVoltageMax) || v[i] > CellVoltageMax;
  }

  /** Extending a scanned prefix of the temperatures by one sensor adds
      that sensor's under- and over-temperature bits. */
  lemma TempFaultsStep(t: seq<int>, i: int)
    requires 0 <= i < |t|
    ensures TempFaults(t[..i + 1]) == TempFaults(t[..i])
      + RaiseIf(t[i] < TempMin, UnderTemperature)
      + RaiseIf(t[i] > TempMax, OverTemperature)
  {
    assert t[..i + 1][i] == t[i];
    assert SomeBelow(t[..i + 1], TempMin) <==> SomeBelow(t[..i], TempMin) || t[i] < TempMin;
    assert SomeAbove(t[..i + 1], TempMax) <==> SomeAbove(t[..i], TempMax) || t[i] > TempMax;
  }

  /** The spread between the highest and lowest cell exceeds `d` exactly
      when some pair of cells differs by more than `d`. */
  lemma SpreadExceedsIff(v: seq<int>, d: int)
    requires CellsInRange(v)
    ensures Spread(v) > d <==> exists j, k :: 0 <= j < |v| && 0 <= k < |v| && v[j] - v[k] > d
  {
    MaxCellIsMaximum(v);
    MinCellIsMinimum(v);
    var hi :| 0 <= hi < |v| && v[hi] == MaxCell(v) by {
      if MaxCell(v) == 0 { assert v[0] == 0; } else { assert MaxCell(v) in v; }
    }
    var lo :| 0 <= lo < |v| && v[lo] == MinCell(v) by {
      if MinCell(v) == Uint16Max { assert v[0] == Uint16Max; } else { assert MinCell(v) in v; }
    }
    if Spread(v) > d {
      assert v[hi] - v[lo] > d;
    }
  }

  // ---------------------------------------------------------------------
  // The state machine across main-loop iterations
  // ---------------------------------------------------------------------

  /** A main-loop iteration ends in FAULT exactly when the new readings
      raise a fault, whatever the state before. */
  lemma StepFaultIff(state: int, r: Reading)
    ensures StepState(state, r) == StateFault <==> FaultsOf(r.cells, r.temps, r.current) != {}
  {
  }

  /** BALANCING is never the outcome of a main-loop iteration: the spread
      that would enter or keep it already raises the imbalance fault. */
  lemma StepNeverBalancing(state: int, r: Reading)
    ensures StepState(state, r) != StateBalancing
  {
  }

  /** A main-loop iteration from a running state ends in a running state. */
  lemma StepPreservesOperational(state: int, r: Reading)
    requires Operational(state)
    ensures Operational(StepState(state, r))
  {
  }

  /** Any number of main-loop iterations from a running state end in a
      running state, in particular never in BALANCING or INIT. */
  lemma {:induction false} RunStaysOperational(state: int, rs: seq<Reading>)
    requires Operational(state)
    ensures Operational(StateAfter(state, rs))
  {
    if |rs| > 0 {
      RunStaysOperational(state, rs[..|rs| - 1]);
      StepPreservesOperational(StateAfter(state, rs[..|rs| - 1]), rs[|rs| - 1]);
    }
  }

  /** After initialisation and any number of main-loop iterations the
      system is running and not balancing. */
  lemma RunFromInitNeverBalancing(first: Reading, rs: seq<Reading>)
    ensures Operational(StateAfter(InitialState(first), rs))
    ensures StateAfter(InitialState(first), rs) != StateBalancing
  {
    RunStaysOperational(InitialState(first), rs);
  }

  /** From any state, CHARGING is entered only from IDLE with a
      charging current, and DISCHARGING only from IDLE with a discharging
      current; so the direction never reverses in a single iteration. */
  lemma StepEntryConditions(state: int, r: Reading)
    ensures StepState(state, r) == StateCharging && state != StateCharging
        ==> state == StateIdle && r.current < -CurrentThreshold
    ensures StepState(state, r) == StateDischarging && state != StateDischarging
        ==> state == StateIdle && r.current > CurrentThreshold
    ensures state == StateCharging ==> StepState(state, r) != StateDischarging
    ensures state == StateDischarging ==> StepState(state, r) != StateCharging
  {
  }

  /** FAULT is left only for IDLE, and only once the readings are clear. */
  lemma FaultClearsToIdle(r: Reading)
    ensures StepState(StateFault, r) in {StateFault, StateIdle}
    ensures StepState(StateFault, r) == StateIdle <==> FaultsOf(r.cells, r.temps, r.current) == {}
  {
  }

  // ---------------------------------------------------------------------
  // Outputs
  // ---------------------------------------------------------------------

  /** Charger and discharge are both enabled only in IDLE and BALANCING,
      and a raised fault disables both at the end of the iteration. */
  lemma StepOutputsSafe(state: int, r: Reading)
    ensures FaultsOf(r.cells, r.temps, r.current) != {}
        ==> OutputsFor(StepState(state, r)) == Outputs(false, false)
    ensures OutputsFor(StepState(state, r)).charger && OutputsFor(StepState(state, r)).discharge
        ==> StepState(state, r) == StateIdle
  {
  }

  // ---------------------------------------------------------------------
  // Balancing
  // ---------------------------------------------------------------------

  /** Only cells above the balancing threshold and within the imbalance
      margin of the highest cell are bled, and only while CHARGING or
      BALANCING. */
  lemma BalanceTargetSelectsTopCells(state: int, v: seq<int>, k: int)
    requires 0 <= k < |v| && BalanceTarget(state, v)[k]
    ensures state == StateCharging || state == StateBalancing
    ensures CellVoltageBalance < v[k] && MaxCell(v) - CellVoltageImbalance < v[k] <= MaxCell(v)
  {
    MaxCellIsMaximum(v);
  }

  /** While CHARGING or BALANCING with the highest cell above the balancing
      threshold, the highest cell is bled. */
  lemma BalanceTargetIncludesHighest(state: int, v: seq<int>)
    requires state == StateCharging || state == StateBalancing
    requires MaxCell(v) > CellVoltageBalance
    ensures exists k :: 0 <= k < |v| && v[k] == MaxCell(v) && BalanceTarget(state, v)[k]
  {
    MaxCellIsMaximum(v);
    assert MaxCell(v) in v;
    var k :| 0 <= k < |v| && v[k] == MaxCell(v);
    assert BalanceTarget(state, v)[k];
  }

  /** After a main-loop iteration, a cell is bled only while CHARGING. */
  lemma StepBalancesOnlyWhileCharging(state: int, r: Reading, k: int)
    requires 0 <= k < |r.cells|
    requires BalanceTarget(StepState(state, r), r.cells)[k]
    ensures StepState(state, r) == StateCharging
  {
    StepNeverBalancing(state, r);
  }

  /** Flags that are already where they should be produce no switch call,
      so a second balancing pass over the same readings and state is silent. */
  lemma {:induction false} SwitchEventsUnchanged(flags: seq<bool>, n: nat)
    requires n <= |flags|
    ensures SwitchEvents(flags, flags, n) == []
  {
    if n > 0 {
      SwitchEventsUnchanged(flags, n - 1);
    }
  }

  /** A balancing pass issues only switch calls for cells whose flag
      changed, carrying the new flag value, and one for every such cell. */
  lemma {:induction false} SwitchEventsExact(before: seq<bool>, after: seq<bool>, n: nat)
    requires n <= |before| && n <= |after|
    ensures forall e :: e in SwitchEvents(before, after, n) ==>
      e.BalanceSwitch? && 0 <= e.cell < n && before[e.cell] != after[e.cell] && e.on == after[e.cell]
    ensures forall k :: 0 <= k < n && before[k] != after[k] ==>
      BalanceSwitch(k, after[k]) in SwitchEvents(before, after, n)
  {
    if n > 0 {
      SwitchEventsExact(before, after, n - 1);
    }
  }

  /** Balance-switch calls in strictly increasing cell order. */
  predicate InCellOrder(r: seq<Event>) {
    forall i, j :: 0 <= i < j < |r| ==>
      r[i].BalanceSwitch? && r[j].BalanceSwitch? && r[i].cell < r[j].cell
  }

  /** The switch calls of a balancing pass go out in increasing cell order,
      so each changed cell is switched exactly once. */
  lemma {:induction false} SwitchEventsOrdered(before: seq<bool>, after: seq<bool>, n: nat)
    requires n <= |before| && n <= |after|
    ensures InCellOrder(SwitchEvents(before, after, n))
  {
    if n > 0 {
      SwitchEventsOrdered(before, after, n - 1);
      SwitchEventsExact(before, after, n - 1);
      var prev := SwitchEvents(before, after, n - 1);
      var r := SwitchEvents(before, after, n);
      forall i, j | 0 <= i < j < |r|
        ensures r[i].BalanceSwitch? && r[j].BalanceSwitch? && r[i].cell < r[j].cell
      {
        assert r[i] in r && r[j] in r;
        if j < |prev| {
          assert r[i] == prev[i] && r[j] == prev[j];
        } else {
          assert prev[i] in prev;
          assert r[i] == prev[i] && r[j].cell == n - 1;
        }
      }
    }
  }
}
