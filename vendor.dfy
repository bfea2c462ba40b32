/**
 * The vendor cloud's wire shapes, as typed values. A JSON number is a `real`;
 * a field that may be missing is an `Option`.
 */
module Vendor {
  import opened Wrappers

  /** The `parameters` record of `GET /deviceStatus/now/{guid}`. */
  datatype Telemetry = Telemetry(
    operate: real,
    operationMode: real,
    temperatureSet: real,
    insideTemperature: real,
    outTemperature: real,
    fanSpeed: real,
    fanAutoMode: real,
    airSwingLR: real,
    airSwingUD: real,
    online: bool,
    errorStatusFlg: bool)

  /**
   * The outcome of one HTTP call: either the transport reported an error (the
   * callback's `err` is set and `response` and `body` are undefined), or a
   * response arrived with a status code and a body. Handlers read the body
   * only on the paths where the source reads it.
   */
  datatype Http<B> = NetworkError | Reply(statusCode: int, body: B)

  /** Body of `POST /auth/login/`: a token on success, an error code on failure. */
  datatype LoginBody = LoginBody(uToken: Option<string>, code: Option<real>)

  /** Body of `GET /device/group/`. */
  datatype DeviceEntry = DeviceEntry(deviceGuid: Option<string>)
  datatype Group = Group(deviceIdList: Option<seq<DeviceEntry>>)
  datatype GroupBody = GroupBody(groupList: Option<seq<Group>>)

  /** Body of `POST /deviceStatus/control/`. */
  datatype ControlResult = ControlResult(result: Option<real>)

  /** A vendor `parameters` object sent with a control request. */
  type Parameters = map<string, real>

  /** Body of `POST /deviceStatus/control/`; `None` parameters are `undefined` ones. */
  datatype ControlRequest = ControlRequest(deviceGuid: Option<string>, parameters: Option<Parameters>)

  /** The app version the accessory announces until the vendor asks for another one. */
  const INITIAL_VERSION: string := "1.7.0"

  /** The login error code by which the vendor rejects the announced app version. */
  const VERSION_MISMATCH: real := 4106.0

  /** Temperatures at or above this are vendor sentinels (126 means "not available"). */
  const SENTINEL_THRESHOLD: real := 99.0
}
