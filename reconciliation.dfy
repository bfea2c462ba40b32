/**
 * The rules by which a polled `parameters` record becomes HomeKit
 * characteristic values: one function per characteristic, and the store that
 * a successful poll leaves behind.
 */
module Reconciliation {
  import opened Wrappers
  import opened HomeKit
  import opened Vendor

  /**
   * The temperature shown: the inside sensor unless it reads a sentinel, else
   * the outside sensor unless it reads one too, else the initial 0.
   */
  function PickTemperature(inside: real, out: real): (r: real)
    ensures inside < SENTINEL_THRESHOLD ==> r == inside
    ensures inside >= SENTINEL_THRESHOLD && out < SENTINEL_THRESHOLD ==> r == out
    ensures inside >= SENTINEL_THRESHOLD && out >= SENTINEL_THRESHOLD ==> r == 0.0
    ensures r < SENTINEL_THRESHOLD
  {
    if inside < SENTINEL_THRESHOLD then inside
    else if out < SENTINEL_THRESHOLD then out
    else 0.0
  }

  /** Active for a vendor `operate` code; `None` leaves the characteristic as it was. */
  function ActiveOf(operate: real): (r: Option<real>)
    ensures r.Some? <==> operate == 0.0 || operate == 1.0
    ensures r.Some? ==> r.value == operate
  {
    if operate == 1.0 then Some(ACTIVE)
    else if operate == 0.0 then Some(INACTIVE)
    else None
  }

  /**
   * TargetHeaterCoolerState for a vendor `operationMode` (0 Auto, 1 Dry,
   * 2 Cool, 3 Heat, 4 Fan); `None` leaves the characteristic as it was.
   */
  function TargetStateOf(mode: real): (r: Option<real>)
    ensures r.Some? <==> mode in {0.0, 1.0, 2.0, 3.0, 4.0}
    ensures r == Some(AUTO) <==> mode == 0.0
    ensures r == Some(HEAT) <==> mode == 3.0
    ensures r == Some(COOL) <==> mode in {1.0, 2.0, 4.0}
  {
    if mode == 0.0 then Some(AUTO)
    else if mode == 3.0 then Some(HEAT)
    else if mode == 2.0 || mode == 1.0 || mode == 4.0 then Some(COOL)
    else None
  }

  /**
   * The CurrentHeaterCoolerState that survives all the writes of a poll:
   * Auto compares both ways, Heat only flags heating, Cool only flags
   * cooling, and every other mode (Dry, Fan, unknown) reports cooling.
   */
  function CurrentStateOf(mode: real, temperature: real, setPoint: real): (r: real)
    ensures r == HEATING <==> (mode == 0.0 || mode == 3.0) && temperature < setPoint
    ensures r == IDLE <==>
      (mode == 0.0 && temperature == setPoint) ||
      (mode == 3.0 && temperature >= setPoint) ||
      (mode == 2.0 && temperature <= setPoint)
    ensures r == COOLING || r == HEATING || r == IDLE
  {
    if mode == 0.0 then
      (if temperature < setPoint then HEATING else if temperature > setPoint then COOLING else IDLE)
    else if mode == 3.0 then
      (if temperature < setPoint then HEATING else IDLE)
    else if mode == 2.0 then
      (if temperature > setPoint then COOLING else IDLE)
    else
      COOLING
  }

  /** RotationSpeed for a vendor `fanSpeed`: vendor 0 (auto) is shown as the top slot 6. */
  function RotationSpeedOf(fanSpeed: real): (r: real)
    ensures fanSpeed == 0.0 ==> r == 6.0
    ensures fanSpeed != 0.0 ==> r == fanSpeed
    ensures r != 0.0
  {
    if fanSpeed == 0.0 then 6.0 else fanSpeed
  }

  /** SwingMode from the two vendor axis settings. */
  function SwingModeOf(airSwingLR: real, airSwingUD: real): (r: real)
    ensures r == SWING_ENABLED <==> airSwingLR == 2.0 && airSwingUD == 0.0
    ensures r == SWING_ENABLED || r == SWING_DISABLED
  {
    if airSwingLR == 2.0 && airSwingUD == 0.0 then SWING_ENABLED else SWING_DISABLED
  }

  /** StatusFault after a poll that returned parameters. */
  function StatusFaultOf(online: bool, errorStatusFlg: bool): (r: real)
    ensures r == NO_FAULT <==> online && !errorStatusFlg
    ensures r == NO_FAULT || r == GENERAL_FAULT
  {
    if online && !errorStatusFlg then NO_FAULT else GENERAL_FAULT
  }

  /** Writes `v` to `c` when there is a value, else leaves the store alone. */
  function UpdateIfSome(store: Store, c: Characteristic, v: Option<real>): Store
  {
    if v.Some? then store[c := v.value] else store
  }

  /** The store after one successful poll, each characteristic at its final value. */
  function Reconciled(store: Store, t: Telemetry): (r: Store)
    ensures store.Keys <= r.Keys
    ensures CurrentTemperature in r && r[CurrentTemperature] < SENTINEL_THRESHOLD
    ensures RotationSpeed in r && r[RotationSpeed] != 0.0
    ensures HeatingThresholdTemperature in r && CoolingThresholdTemperature in r
    ensures r[HeatingThresholdTemperature] == r[CoolingThresholdTemperature] == t.temperatureSet
  {
    var temperature := PickTemperature(t.insideTemperature, t.outTemperature);
    var withActive := UpdateIfSome(store, Active, ActiveOf(t.operate));
    var withStates := UpdateIfSome(
      withActive[CurrentTemperature := temperature]
                [CurrentHeaterCoolerState := CurrentStateOf(t.operationMode, temperature, t.temperatureSet)],
      TargetHeaterCoolerState, TargetStateOf(t.operationMode));
    withStates[RotationSpeed := RotationSpeedOf(t.fanSpeed)]
              [SwingMode := SwingModeOf(t.airSwingLR, t.airSwingUD)]
              [HeatingThresholdTemperature := t.temperatureSet]
              [CoolingThresholdTemperature := t.temperatureSet]
              [StatusFault := StatusFaultOf(t.online, t.errorStatusFlg)]
  }

  /** A poll writes every characteristic except, on unknown codes, Active and the target state. */
  lemma ReconciledKeys(store: Store, t: Telemetry)
    ensures Reconciled(store, t).Keys ==
      store.Keys
      + {CurrentTemperature, CurrentHeaterCoolerState, RotationSpeed, SwingMode,
         HeatingThresholdTemperature, CoolingThresholdTemperature, StatusFault}
      + (if ActiveOf(t.operate).Some? then {Active} else {})
      + (if TargetStateOf(t.operationMode).Some? then {TargetHeaterCoolerState} else {})
  {
  }

  /** The final CurrentHeaterCoolerState of a poll, case by case, and that `operate` plays no part. */
  lemma FinalCurrentState(store: Store, t: Telemetry, operate: real)
    ensures var temperature := PickTemperature(t.insideTemperature, t.outTemperature);
      var r := Reconciled(store, t)[CurrentHeaterCoolerState];
      && (t.operationMode == 0.0 ==>
            r == (if temperature < t.temperatureSet then HEATING
                  else if temperature > t.temperatureSet then COOLING else IDLE))
      && (t.operationMode == 3.0 ==> r == (if temperature < t.temperatureSet then HEATING else IDLE))
      && (t.operationMode == 2.0 ==> r == (if temperature > t.temperatureSet then COOLING else IDLE))
      && (t.operationMode !in {0.0, 2.0, 3.0} ==> r == COOLING)
    ensures Reconciled(store, t)[CurrentHeaterCoolerState]
         == Reconciled(store, t.(operate := operate))[CurrentHeaterCoolerState]
  {
  }

  /** Codes outside the known ones leave Active and TargetHeaterCoolerState exactly as they were. */
  lemma UnknownCodesKeepState(store: Store, t: Telemetry)
    ensures t.operate !in {0.0, 1.0} ==>
      (Active in Reconciled(store, t) <==> Active in store) &&
      (Active in store ==> Reconciled(store, t)[Active] == store[Active])
    ensures t.operationMode !in {0.0, 1.0, 2.0, 3.0, 4.0} ==>
      (TargetHeaterCoolerState in Reconciled(store, t) <==> TargetHeaterCoolerState in store) &&
      (TargetHeaterCoolerState in store ==>
         Reconciled(store, t)[TargetHeaterCoolerState] == store[TargetHeaterCoolerState])
  {
  }

  /** Both thresholds show the set point, and the fault is cleared exactly for an online device without error. */
  lemma ThresholdsAndFault(store: Store, t: Telemetry)
    ensures Reconciled(store, t)[HeatingThresholdTemperature] == t.temperatureSet
    ensures Reconciled(store, t)[CoolingThresholdTemperature] == t.temperatureSet
    ensures Reconciled(store, t)[StatusFault] == NO_FAULT <==> t.online && !t.errorStatusFlg
  {
  }

  /** The temperature shown is never a sentinel, even when the inside sensor reports 126. */
  lemma SentinelNeverShown(store: Store, t: Telemetry)
    ensures Reconciled(store, t)[CurrentTemperature] < SENTINEL_THRESHOLD
    ensures t.insideTemperature == 126.0 && t.outTemperature < SENTINEL_THRESHOLD ==>
      Reconciled(store, t)[CurrentTemperature] == t.outTemperature
    ensures t.insideTemperature >= SENTINEL_THRESHOLD && t.outTemperature >= SENTINEL_THRESHOLD ==>
      Reconciled(store, t)[CurrentTemperature] == 0.0
  {
  }
}
