/**
 * The command side: how a HomeKit write on one of the bound characteristics
 * becomes the vendor `parameters` object of a control request.
 */
module Commands {
  import opened HomeKit
  import opened Vendor
  import opened Wrappers

  /** A HomeKit `set` as the accessory receives it: the name it was bound with, and the value. */
  datatype Command = Command(name: string, value: real)

  /**
   * The `parameters` object sent for a command. `None` is an `undefined`
   * object: a value no case of the name's switch matches, or a name with no case.
   */
  function Payload(cmd: Command): (r: Option<Parameters>)
    ensures r.Some? <==>
      (cmd.name == "Active" && cmd.value in {ACTIVE, INACTIVE}) ||
      (cmd.name == "TargetHeaterCoolerState" && cmd.value in {AUTO, HEAT, COOL}) ||
      (cmd.name == "SwingMode" && cmd.value in {SWING_ENABLED, SWING_DISABLED}) ||
      cmd.name == "RotationSpeed" || cmd.name == "ThresholdTemperature"
  {
    var v := cmd.value;
    if cmd.name == "Active" then
      if v == ACTIVE then Some(map["operate" := 1.0])
      else if v == INACTIVE then Some(map["operate" := 0.0])
      else None
    else if cmd.name == "TargetHeaterCoolerState" then
      if v == AUTO then Some(map["operationMode" := 0.0])
      else if v == HEAT then Some(map["operationMode" := 3.0])
      else if v == COOL then Some(map["operationMode" := 2.0])
      else None
    else if cmd.name == "RotationSpeed" then
      if v == 6.0 then Some(map["fanSpeed" := 0.0])
      else Some(map["fanSpeed" := v])
    else if cmd.name == "SwingMode" then
      if v == SWING_ENABLED then Some(map["fanAutoMode" := 0.0, "airSwingLR" := 2.0, "airSwingUD" := 0.0])
      else if v == SWING_DISABLED then Some(map["fanAutoMode" := 1.0, "airSwingLR" := 2.0, "airSwingUD" := 0.0])
      else None
    else if cmd.name == "ThresholdTemperature" then
      Some(map["temperatureSet" := v])
    else
      None
  }

  /** The value `p` gives `key`, or `current` when `p` does not mention it. */
  function FieldOr(p: Parameters, key: string, current: real): real
  {
    if key in p then p[key] else current
  }

  /**
   * The telemetry of a device that has taken over every field of a control
   * payload and kept the others: the reference against which the command
   * mapping and the poll rules are paired.
   */
  function Adopt(t: Telemetry, p: Parameters): Telemetry
  {
    t.(operate := FieldOr(p, "operate", t.operate),
       operationMode := FieldOr(p, "operationMode", t.operationMode),
       temperatureSet := FieldOr(p, "temperatureSet", t.temperatureSet),
       fanSpeed := FieldOr(p, "fanSpeed", t.fanSpeed),
       fanAutoMode := FieldOr(p, "fanAutoMode", t.fanAutoMode),
       airSwingLR := FieldOr(p, "airSwingLR", t.airSwingLR),
       airSwingUD := FieldOr(p, "airSwingUD", t.airSwingUD))
  }
}
