/**
 * The command mapping paired with the poll rules: what HomeKit shows after
 * the device has taken over a payload, and what HomeKit would send back for a
 * value it was shown.
 */
module RoundTrip {
  import opened Wrappers
  import opened HomeKit
  import opened Vendor
  import opened Reconciliation
  import opened Commands

  /** Setting ACTIVE or INACTIVE sends `operate` 1 or 0, which reads back as the value set. */
  lemma ActiveSetThenRead(store: Store, t: Telemetry, v: real)
    requires v == ACTIVE || v == INACTIVE
    ensures Payload(Command("Active", v)) == Some(map["operate" := if v == ACTIVE then 1.0 else 0.0])
    ensures Reconciled(store, Adopt(t, Payload(Command("Active", v)).value))[Active] == v
  {
  }

  /** A shown Active value is sent back as the `operate` code it was read from. */
  lemma ActiveReadThenSet(operate: real)
    requires ActiveOf(operate).Some?
    ensures Payload(Command("Active", ActiveOf(operate).value)) == Some(map["operate" := operate])
  {
  }

  /** AUTO, HEAT and COOL send modes 0, 3 and 2, which read back as the same target state. */
  lemma ModeSetThenRead(store: Store, t: Telemetry, v: real)
    requires v in {AUTO, HEAT, COOL}
    ensures Payload(Command("TargetHeaterCoolerState", v)) ==
      Some(map["operationMode" := if v == AUTO then 0.0 else if v == HEAT then 3.0 else 2.0])
    ensures Reconciled(store, Adopt(t, Payload(Command("TargetHeaterCoolerState", v)).value))[TargetHeaterCoolerState] == v
  {
  }

  /**
   * A shown target state sent back selects the same mode for Auto, Heat and
   * Cool; Dry and Fan, shown as COOL, come back as Cool (mode 2).
   */
  lemma ModeReadThenSet(mode: real)
    requires TargetStateOf(mode).Some?
    ensures Payload(Command("TargetHeaterCoolerState", TargetStateOf(mode).value)) ==
      Some(map["operationMode" := if mode in {1.0, 4.0} then 2.0 else mode])
  {
  }

  /** Every UI fan speed but 0 reads back unchanged; slot 6 travels as vendor 0. */
  lemma FanSetThenRead(store: Store, t: Telemetry, v: real)
    requires v != 0.0
    ensures Payload(Command("RotationSpeed", v)) == Some(map["fanSpeed" := if v == 6.0 then 0.0 else v])
    ensures Reconciled(store, Adopt(t, Payload(Command("RotationSpeed", v)).value))[RotationSpeed] == v
  {
  }

  /** Every vendor fan speed but 6 is sent back unchanged; vendor 6 shares UI slot 6 with 0. */
  lemma FanReadThenSet(fanSpeed: real)
    ensures fanSpeed != 6.0 ==>
      Payload(Command("RotationSpeed", RotationSpeedOf(fanSpeed))) == Some(map["fanSpeed" := fanSpeed])
    ensures fanSpeed == 6.0 ==>
      Payload(Command("RotationSpeed", RotationSpeedOf(fanSpeed))) == Some(map["fanSpeed" := 0.0])
  {
  }

  /** On UI slots 1..6 and vendor speeds 0..5 the two fan mappings are inverse bijections. */
  lemma FanBijection(ui: int, vendor: int)
    ensures 1 <= ui <= 6 ==>
      Payload(Command("RotationSpeed", ui as real)).Some? &&
      RotationSpeedOf(Payload(Command("RotationSpeed", ui as real)).value["fanSpeed"]) == ui as real
    ensures 0 <= vendor <= 5 ==>
      Payload(Command("RotationSpeed", RotationSpeedOf(vendor as real))) == Some(map["fanSpeed" := vendor as real])
  {
  }

  /** Both swing payloads put the vanes at LR 2 / UD 0 and differ only in `fanAutoMode`. */
  lemma SwingPayloads()
    ensures Payload(Command("SwingMode", SWING_ENABLED)) ==
      Some(map["fanAutoMode" := 0.0, "airSwingLR" := 2.0, "airSwingUD" := 0.0])
    ensures Payload(Command("SwingMode", SWING_DISABLED)) ==
      Some(map["fanAutoMode" := 1.0, "airSwingLR" := 2.0, "airSwingUD" := 0.0])
  {
  }

  /**
   * The poll ignores `fanAutoMode`, so a device that takes over either swing
   * payload is shown as SWING_ENABLED: disabling swing does not read back.
   */
  lemma SwingReadsBackEnabled(store: Store, t: Telemetry, v: real)
    requires v == SWING_ENABLED || v == SWING_DISABLED
    ensures Reconciled(store, Adopt(t, Payload(Command("SwingMode", v)).value))[SwingMode] == SWING_ENABLED
  {
  }

  /** A threshold write forwards the value verbatim, and both thresholds read it back. */
  lemma ThresholdSetThenRead(store: Store, t: Telemetry, v: real)
    ensures Payload(Command("ThresholdTemperature", v)) == Some(map["temperatureSet" := v])
    ensures Reconciled(store, Adopt(t, Payload(Command("ThresholdTemperature", v)).value))[HeatingThresholdTemperature] == v
    ensures Reconciled(store, Adopt(t, Payload(Command("ThresholdTemperature", v)).value))[CoolingThresholdTemperature] == v
  {
  }
}
