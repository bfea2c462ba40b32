# Panasonic air conditioner accessory: a verified model

This project models the core of `homebridge-panasonic-air-conditioner`. This
Homebridge accessory shows one Panasonic heat pump in HomeKit through the
vendor's cloud. Its core has four parts:

- **Poll reconciliation.** The `_refresh` callback turns the vendor's
  `parameters` record into HomeKit Heater Cooler characteristic values. It
  calls `updateValue` several times on the same characteristic. The model
  keeps those writes in source order and proves the final value of each
  characteristic (`Accessory.PanasonicAC.ApplyTelemetry` against
  `Reconciliation.Reconciled`).
- **Command mapping.** The `_setValue` switch maps a characteristic name and
  value to vendor control parameters (`Commands.Payload`). It is paired with
  the poll rules as round trips (module `RoundTrip`). For these, a device is
  assumed to report back the fields it was sent (`Commands.Adopt`).
- **Response classification.** This is the status and `result` branching of
  the poll and control callbacks (module `Responses`).
- **Login and session handling.** `_login` stores the token, resolves the
  device GUID with one device number for both indices, sets the fault flag,
  arms the intervals on initial logins only, and retries with a new app
  version on code 4106. This is class `Accessory.PanasonicAC`.

Deferred work is a log of `Schedule.Scheduled` events with their delays:
things started in a callback, `setInterval` and `setTimeout`. Time does not
pass in the model. Module `Schedule` proves what runs of polls and commands
add to that log.

Every JavaScript number that comes from JSON or goes to HomeKit is a `real`.
Comparisons are exact. HTTP status codes are `int`. The HomeKit state numbers
are HAP-NodeJS's: ACTIVE 1, IDLE 1, HEATING 2, COOLING 3, AUTO 0, HEAT 1,
COOL 2, SWING_ENABLED 1, GENERAL_FAULT 1. They are not defined in `index.js`.
A vendor response is an input value: `Vendor.Http` is either a transport
error or a status with a typed body. A field that may be missing is an
`Option`. `None` stands for `undefined`.

The code does not do the following, and neither does the model:

- **Login.** Logins are not single-flight. A login failure other than 4106
  schedules no retry. A failed device lookup schedules no retry either.
- **Acknowledgement.** The HomeKit callback fires only when the control
  response has status 200 and `result == 0`. It is not optimistic.
- **Reconciliation.** Threshold temperatures are not clamped. The shown
  temperature falls back to 0, not to an absent value. Dry and Fan report
  COOLING, not IDLE. An inactive device is not forced to IDLE.
- **Status 403 on a poll.** It only sets a fault, like any other non-200
  status.

Consequences of the code as written, each proved:

- Disabling swing sends `airSwingLR` 2 and `airSwingUD` 0. Those are the
  values the poll reads as "enabled", so the setting reads back as
  SWING_ENABLED (`RoundTrip.SwingReadsBackEnabled`).
- The 4106 retry always calls `_login(true)`. A periodic re-login that gets
  4106 therefore arms a second pair of intervals once the retry succeeds
  (`Schedule.PeriodicVersionRetryRearmsIntervals`).
- One device number selects both the group and the device. The second device
  of the first group can never be chosen
  (`Responses.SecondDeviceOfFirstGroupUnreachable`).
- The 401 test in `_setValue` sits inside the branch for status 200, so it
  can never hold. A failed command never starts a login
  (`Responses.SetRelogin`, `Schedule.ReloginsAreExpiredPolls`).

## Model

| member | source | states |
|---|---|---|
| Reconciliation.PickTemperature | index.js:241-250 | The inside reading is shown if it is below 99. Otherwise the outside reading is shown if it is below 99. Otherwise the initial 0 stays. The shown value is never a sentinel (99 and above, 126 included). |
| Reconciliation.ActiveOf | index.js:234-239 | `operate` 1 and 0 become ACTIVE and INACTIVE, which have the same numeric values. Any other code leaves Active unwritten. |
| Reconciliation.TargetStateOf | index.js:267-309 | Mode 0 becomes AUTO and mode 3 becomes HEAT. Modes 1, 2 and 4 become COOL. Any other mode leaves the target state unwritten. |
| Reconciliation.CurrentStateOf | index.js:258-309 | The final state is HEATING exactly for Auto or Heat below the set point. It is IDLE exactly for Auto at the set point, Heat at or above it, and Cool at or below it. Every other case is COOLING. |
| Reconciliation.RotationSpeedOf | index.js:311-316 | Vendor fan speed 0 is shown as 6. Every other speed is shown unchanged, so the shown value is never 0. |
| Reconciliation.SwingModeOf | index.js:318-320 | SwingMode is ENABLED exactly when `airSwingLR` is 2 and `airSwingUD` is 0. Otherwise it is DISABLED. |
| Reconciliation.StatusFaultOf | index.js:326-334 | After a successful poll, StatusFault is NO_FAULT exactly when the device is online and has no error flag. |
| Reconciliation.ReconciledKeys | index.js:232-334 | A successful poll always writes CurrentTemperature, CurrentHeaterCoolerState, RotationSpeed, SwingMode, both thresholds and StatusFault. It writes Active and TargetHeaterCoolerState only for known codes. Every key already present stays. |
| Reconciliation.FinalCurrentState | index.js:258-309 | Gives the value that survives the repeated CurrentHeaterCoolerState writes, mode by mode. `operate` has no influence on it. |
| Reconciliation.UnknownCodesKeepState | index.js:234-309 | An unknown `operate` leaves Active exactly as it was. An unknown mode does the same for TargetHeaterCoolerState. "Exactly" includes never having been written. |
| Reconciliation.ThresholdsAndFault | index.js:322-334 | Both threshold characteristics show `temperatureSet`. The fault is cleared exactly for an online device without error. |
| Reconciliation.SentinelNeverShown | index.js:241-250 | The shown temperature is below 99. An inside reading of 126 falls back to a valid outside reading. Two sentinel readings show 0. |
| Commands.Payload | index.js:358-415 | A payload exists exactly for ACTIVE or INACTIVE, for AUTO, HEAT or COOL, for either swing value, and for any fan speed or threshold. Every other value, and every unknown name, sends `undefined` parameters. |
| RoundTrip.ActiveSetThenRead | index.js:362-367 | Setting ACTIVE or INACTIVE sends `operate` 1 or 0. A device that adopts the code reads back as the value set. |
| RoundTrip.ActiveReadThenSet | index.js:235-237 | A shown Active value, set again, sends back the `operate` code it was read from. |
| RoundTrip.ModeSetThenRead | index.js:370-375 | AUTO, HEAT and COOL send `operationMode` 0, 3 and 2. Each reads back as the same target state. |
| RoundTrip.ModeReadThenSet | index.js:268-304 | A shown target state, set again, sends back the same mode for Auto, Heat and Cool. Dry and Fan come back as Cool (2). |
| RoundTrip.FanSetThenRead | index.js:381-387 | Setting 6 sends `fanSpeed` 0, and any other value is sent verbatim. Every UI value other than 0 reads back unchanged. |
| RoundTrip.FanReadThenSet | index.js:311-316 | For every vendor speed other than 6, the shown speed set again sends back that speed. Vendor 6 comes back as 0. |
| RoundTrip.FanBijection | index.js:383-386 | On UI slots 1..6 set-then-read is the identity. On vendor speeds 0..5 read-then-set is the identity. |
| RoundTrip.SwingPayloads | index.js:390-408 | Both swing payloads carry `airSwingLR` 2 and `airSwingUD` 0. They differ only in `fanAutoMode`: 0 for enabled, 1 for disabled. |
| RoundTrip.SwingReadsBackEnabled | index.js:318-320 | A device that adopts either swing payload is shown as SWING_ENABLED. |
| RoundTrip.ThresholdSetThenRead | index.js:410-414 | A threshold write sends `temperatureSet` verbatim. Both thresholds read it back. |
| Responses.ClassifyRefresh | index.js:231-351 | A poll response is classified exactly as follows: 200 reconciles the body, 401 means the token expired, 403 means the login was rejected, and any other status is a failure. A transport error aborts, because reading the undefined response throws. |
| Responses.ClassifySet | index.js:432-460 | A command is acknowledged exactly when the status is 200 and `result` is 0. It is rejected exactly when the status is 200 and `result` is anything else. Everything else fails. |
| Responses.SetRelogin | index.js:432-444 | The re-login condition of the control callback never holds. The 401 test is nested under status 200. |
| Responses.FailureCode | index.js:187-190 | A failed login yields the body's code. A transport error yields none, because reading the undefined body throws and is caught. |
| Responses.DeviceNumberFrom | index.js:32 | A missing or zero device number setting becomes 1. Any other setting is kept, so the result is never 0. |
| Responses.DeviceLookup | index.js:160-168 | The lookup succeeds exactly when `groupList`, entry n-1, its `deviceIdList` and that list's entry n-1 all exist. It then yields `groupList[n-1].deviceIdList[n-1].deviceGuid`. |
| Responses.SingleDeviceResolves | index.js:162 | One group with one device `G` resolves to `G` for device number 1. |
| Responses.SecondDeviceOfFirstGroupUnreachable | index.js:162 | With one group of two devices, number 2 finds nothing. No number selects the second device. |
| Schedule.IntervalsOnlyOnInitialLogin | index.js:170-179 | The refresh interval is armed exactly by an initial login whose token and device listing both arrived. No other login arms any interval. |
| Schedule.RetryOnlyOnVersionMismatch | index.js:187-207 | A failed login schedules an initial login after 30000 ms exactly when its code is 4106. It schedules nothing otherwise. |
| Schedule.PeriodicVersionRetryRearmsIntervals | index.js:190-197 | A periodic login that gets 4106 schedules `_login(true)`. When that retry succeeds, it arms the 600000 ms and 10800000 ms intervals again. |
| Schedule.ReloginsAreExpiredPolls | index.js:340-345 | Over any run of polls and commands, the number of logins started equals the number of polls answered 401. |
| Schedule.DelayedPollsAreTargetStateCommands | index.js:377-378 | Over any run, the number of 2500 ms delayed polls equals the number of target-state commands. |
| Schedule.SteadyStateArmsNoIntervals | index.js:336-351 | Polls and commands never arm an interval and never start an initial login. |
| Accessory.LoginFault | index.js:157-206 | A login clears the fault exactly when the token, the listing and the device were all found. It writes no fault exactly when the listing fetch had a transport error, because reading its undefined body throws. Every other outcome writes GENERAL_FAULT. |
| Accessory.PanasonicAC.constructor | index.js:23-38 | A new accessory has no token and no device, and announces version 1.7.0. Its device number is taken from the setting. It has started `_login(true)`. |
| Accessory.PanasonicAC.Login | index.js:126-210 | On success the token is stored. Once the listing arrives, a found device replaces `device` and a failed lookup keeps it. Code 4106 replaces `version`. The fault and the scheduled work are as given by `LoginFault` and `LoginFollowUps`. |
| Accessory.PanasonicAC.Refresh | index.js:218-353 | The store becomes the reconciled one on 200. It gets GENERAL_FAULT on 401, 403 and other statuses, and stays unchanged on a transport error. Only 401 schedules `_login()`. The session fields do not change. |
| Accessory.PanasonicAC.ApplyTelemetry | index.js:232-334 | The `updateValue` calls, made in source order, leave the store equal to the closed form `Reconciled`. |
| Accessory.PanasonicAC.WriteCurrentTemperature | index.js:241-250 | The temperature written is `PickTemperature` of the two sensor readings. |
| Accessory.PanasonicAC.WriteHeaterCoolerStates | index.js:258-309 | The group write of CurrentHeaterCoolerState is followed by the per-mode switch. For modes 0 to 4 the switch's write wins. For unknown modes the switch writes nothing and the group write of COOLING stays. Either way the final value equals `CurrentStateOf`, and the target state is written only for known modes. |
| Reconciliation.Reconciled | index.js:232-334 | The store after a successful poll keeps every earlier key. Its temperature is below 99, its rotation speed is never 0, and both thresholds equal `temperatureSet`. |
| Accessory.RefreshedStore | index.js:231-351 | A transport error leaves the store unchanged. A 200 reply gives exactly `Reconciled` of the telemetry, whose StatusFault is NO_FAULT exactly for an online device without error. Any other status gives the old store with StatusFault set to GENERAL_FAULT and nothing else changed. |
| Schedule.RefreshFollowUps | index.js:340-345 | A poll schedules something exactly when it is answered 401, and then only `_login()` without `isInitial`. |
| Schedule.SetFollowUps | index.js:377-378 | A command schedules something exactly when it writes the target state, and then only a poll after 2500 ms. The re-login at index.js:440-443 never contributes. |
| Schedule.LoginFollowUps | index.js:170-197 | A login schedules work only if it is initial and succeeded, or hit 4106. Intervals need an initial login and a device listing. On 4106 it schedules exactly `_login(true)` after 30000 ms. An initial login with token and listing schedules exactly `_refresh()` now and both intervals. No login starts `_login()` directly. |
| Accessory.PanasonicAC.WriteActive | index.js:234-239 | Active is written as ACTIVE or INACTIVE for `operate` 1 or 0. For any other code the store is unchanged. |
| Accessory.PanasonicAC.WriteCurrentStateByGroup | index.js:258-265 | For modes 0, 2 and 3, CurrentHeaterCoolerState gets HEATING below the set point, COOLING above it and IDLE at it. For any other mode it gets COOLING. Nothing else changes. |
| Accessory.PanasonicAC.WriteStatesByMode | index.js:267-309 | For modes 0 to 4 the switch overwrites CurrentHeaterCoolerState with `CurrentStateOf` and writes the mode's target state. For any other mode the store is unchanged. |
| Accessory.PanasonicAC.WriteFanSwingThresholdsFault | index.js:311-334 | Writes RotationSpeed, SwingMode, both thresholds and StatusFault with the values of the poll rules, in source order. |
| Accessory.PanasonicAC.SetValue | index.js:355-462 | Sends `Payload` to the current device. It acknowledges with the value and clears the fault exactly when the response is classified Acknowledged. Otherwise it sets GENERAL_FAULT. It schedules a 2500 ms poll for target-state commands and never a login. |

## Left out

- The HTTP transport (`request`, `got`), headers, URLs and the login request body are outside the model. The vendor responses are inputs.
- Malformed response bodies are not modelled. That covers `JSON.parse` failures and a poll body without `parameters`. The bodies are typed.
- JavaScript's loose typing of JSON fields is not modelled, for example a missing number comparing false, or a string `operate`.
- The app-store lookup `getNewAppVersion` is an input `newVersion: Option<string>` of `Login`. `None` is the `undefined` it returns when the lookup fails.
- `getServices`, `identify` and `_getValue` are not modelled: they are characteristic registration, `setProps` and information wiring. The Heater Cooler service is created together with the accessory.
- The FakeGato history entry and its `moment` timestamp are left out, because they are an external library and the wall clock.
- Logging and debug output are left out.
- Timer semantics are not modelled. `setInterval` and `setTimeout` are recorded with their delays, and a started call is recorded as `Now(...)`. What later runs is another method call with its own response.
- Asynchrony is collapsed. Each callback chain is one method call. The 4106 path writes `version` after an `await`, which is later than the fault write. In the model both happen in the same call.
- An exception nobody catches ends the handler in the model, with no further writes. Its effect on the Homebridge process is not modelled.
- Temperatures are exact reals, not IEEE doubles.
- `email` and `password` are not modelled, because they only go into the login request body.
