/**
 * The HomeKit side of the accessory: the characteristics of the Heater Cooler
 * service that the plugin writes, and the numeric values HomeKit assigns to
 * their named states (as HAP-NodeJS defines them).
 */
module HomeKit {

  datatype Characteristic =
    | Active
    | CurrentTemperature
    | CurrentHeaterCoolerState
    | TargetHeaterCoolerState
    | RotationSpeed
    | SwingMode
    | HeatingThresholdTemperature
    | CoolingThresholdTemperature
    | StatusFault

  /** The value each characteristic currently holds; a missing key was never written. */
  type Store = map<Characteristic, real>

  // Active
  const INACTIVE: real := 0.0
  const ACTIVE: real := 1.0

  // CurrentHeaterCoolerState
  const IDLE: real := 1.0
  const HEATING: real := 2.0
  const COOLING: real := 3.0

  // TargetHeaterCoolerState
  const AUTO: real := 0.0
  const HEAT: real := 1.0
  const COOL: real := 2.0

  // SwingMode
  const SWING_DISABLED: real := 0.0
  const SWING_ENABLED: real := 1.0

  // StatusFault
  const NO_FAULT: real := 0.0
  const GENERAL_FAULT: real := 1.0
}
