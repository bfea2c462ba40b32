/**
 * The accessory object: its session fields, the HomeKit Heater Cooler
 * service whose characteristics it overwrites, and the three callbacks that
 * handle the vendor's login, poll and control responses.
 */
module Accessory {
  import opened Wrappers
  import opened HomeKit
  import opened Vendor
  import opened Reconciliation
  import opened Commands
  import opened Responses
  import opened Schedule

  /** The Heater Cooler service: a value per characteristic, overwritten by each `updateValue`. */
  class HeaterCoolerService {
    var values: Store

    constructor ()
      ensures values == map[]
    {
      values := map[];
    }

    method UpdateValue(c: Characteristic, v: real)
      modifies this
      ensures values == old(values)[c := v]
    {
      values := values[c := v];
    }
  }

  /** The store a poll callback leaves behind. */
  function RefreshedStore(store: Store, reply: Http<Telemetry>): (r: Store)
    ensures reply.NetworkError? ==> r == store
    ensures store.Keys <= r.Keys
    ensures reply.Reply? ==> StatusFault in r
    ensures reply.Reply? ==>
      (r[StatusFault] == NO_FAULT <==> reply.statusCode == 200 && reply.body.online && !reply.body.errorStatusFlg)
    ensures reply.Reply? && reply.statusCode != 200 ==>
      forall c :: c in store && c != StatusFault ==> c in r && r[c] == store[c]
    ensures reply.Reply? && reply.statusCode == 200 ==> r == Reconciled(store, reply.body)
    ensures reply.Reply? && reply.statusCode != 200 ==> r == store[StatusFault := GENERAL_FAULT]
  {
    match ClassifyRefresh(reply)
    case Reconcile(t) => Reconciled(store, t)
    case Aborted => store
    case _ => store[StatusFault := GENERAL_FAULT]
  }

  /** The StatusFault a login writes, or `None` when its handler stops before writing one. */
  function LoginFault(loginReply: Http<LoginBody>, groupReply: Http<GroupBody>, deviceNumber: int): (r: Option<real>)
    ensures r == Some(NO_FAULT) <==>
      LoginSucceeded(loginReply) && GroupListed(groupReply) && DeviceLookup(groupReply.body, deviceNumber).Found?
    ensures r == None <==> LoginSucceeded(loginReply) && groupReply.NetworkError?
    ensures r.Some? && r.value != NO_FAULT ==> r.value == GENERAL_FAULT
  {
    if !LoginSucceeded(loginReply) then Some(GENERAL_FAULT)
    else match groupReply
      case NetworkError => None
      case Reply(status, body) =>
        if status != 200 then Some(GENERAL_FAULT)
        else if DeviceLookup(body, deviceNumber).Found? then Some(NO_FAULT)
        else Some(GENERAL_FAULT)
  }

  class PanasonicAC {
    const deviceNumber: int
    const hcService: HeaterCoolerService
    var uToken: Option<string>
    var device: Option<string>
    var version: Option<string>
    /** Every call, interval and timeout this accessory has set up, oldest first. */
    var scheduled: seq<Scheduled>

    /** A new accessory has no token and no device, and has started its initial login. */
    constructor (deviceNumberSetting: Option<int>)
      ensures deviceNumber == DeviceNumberFrom(deviceNumberSetting)
      ensures uToken == None && device == None && version == Some(INITIAL_VERSION)
      ensures fresh(hcService) && hcService.values == map[]
      ensures scheduled == [Now(LoginCall(true))]
    {
      deviceNumber := DeviceNumberFrom(deviceNumberSetting);
      hcService := new HeaterCoolerService();
      uToken := None;
      version := Some(INITIAL_VERSION);
      device := None;
      scheduled := [Now(LoginCall(true))];
    }

    /**
     * The login callback chain: store the token, fetch the device listing,
     * resolve the device, set the fault, and arm the timers; `newVersion` is
     * what the app-store lookup yields when the vendor answers 4106.
     */
    method Login(isInitial: bool, loginReply: Http<LoginBody>, groupReply: Http<GroupBody>, newVersion: Option<string>)
      modifies this, hcService
      ensures uToken == if LoginSucceeded(loginReply) then loginReply.body.uToken else old(uToken)
      ensures device ==
        if LoginSucceeded(loginReply) && GroupListed(groupReply) && DeviceLookup(groupReply.body, deviceNumber).Found?
        then DeviceLookup(groupReply.body, deviceNumber).guid
        else old(device)
      ensures version == if VersionMismatch(loginReply) then newVersion else old(version)
      ensures hcService.values ==
        if LoginFault(loginReply, groupReply, deviceNumber).Some?
        then old(hcService.values)[StatusFault := LoginFault(loginReply, groupReply, deviceNumber).value]
        else old(hcService.values)
      ensures scheduled == old(scheduled) + LoginFollowUps(isInitial, loginReply, groupReply)
    {
      if loginReply.Reply? && loginReply.statusCode == 200 {
        uToken := loginReply.body.uToken;
        match groupReply
        case NetworkError =>
          // reading `code` from the undefined body throws before the fault is written
        case Reply(status, body) =>
          if status == 200 {
            var lookup := DeviceLookup(body, deviceNumber);
            if lookup.Found? {
              device := lookup.guid;
              hcService.UpdateValue(StatusFault, NO_FAULT);
            } else {
              hcService.UpdateValue(StatusFault, GENERAL_FAULT);
            }
            if isInitial {
              scheduled := scheduled + [Now(RefreshCall)];
              scheduled := scheduled + [Interval(REFRESH_INTERVAL_MS, RefreshCall)];
              scheduled := scheduled + [Interval(RELOGIN_INTERVAL_MS, LoginCall(false))];
            }
          } else {
            hcService.UpdateValue(StatusFault, GENERAL_FAULT);
          }
      } else {
        if FailureCode(loginReply) == Some(VERSION_MISMATCH) {
          version := newVersion;
          scheduled := scheduled + [Timeout(VERSION_RETRY_DELAY_MS, LoginCall(true))];
        }
        hcService.UpdateValue(StatusFault, GENERAL_FAULT);
      }
    }

    /** The poll callback: classify the response and, on status 200, write every characteristic. */
    method Refresh(reply: Http<Telemetry>)
      modifies this, hcService
      ensures uToken == old(uToken) && device == old(device) && version == old(version)
      ensures hcService.values == RefreshedStore(old(hcService.values), reply)
      ensures scheduled == old(scheduled) + RefreshFollowUps(reply)
    {
      match reply
      case NetworkError =>
        // comparing the status of the undefined response throws before anything is written
      case Reply(statusCode, json) =>
        if statusCode == 200 {
          ApplyTelemetry(json);
        } else if statusCode == 403 {
          hcService.UpdateValue(StatusFault, GENERAL_FAULT);
        } else if statusCode == 401 {
          hcService.UpdateValue(StatusFault, GENERAL_FAULT);
          scheduled := scheduled + [Now(LoginCall(false))];
        } else {
          hcService.UpdateValue(StatusFault, GENERAL_FAULT);
        }
    }

    /**
     * The characteristic writes of a successful poll, in the order the
     * accessory makes them; CurrentHeaterCoolerState is written twice for
     * Auto, Heat and Cool, and the later write wins.
     */
    method ApplyTelemetry(p: Telemetry)
      modifies hcService
      ensures hcService.values == Reconciled(old(hcService.values), p)
    {
      WriteActive(p.operate);
      var temperature := WriteCurrentTemperature(p.insideTemperature, p.outTemperature);
      WriteHeaterCoolerStates(p.operationMode, temperature, p.temperatureSet);
      WriteFanSwingThresholdsFault(p);
    }

    /** Lines for Active: only the codes 1 and 0 are written. */
    method WriteActive(operate: real)
      modifies hcService
      ensures hcService.values == UpdateIfSome(old(hcService.values), Active, ActiveOf(operate))
    {
      if operate == 1.0 {
        hcService.UpdateValue(Active, ACTIVE);
      } else if operate == 0.0 {
        hcService.UpdateValue(Active, INACTIVE);
      }
    }

    /** Lines for CurrentTemperature: the variable starts at 0 and takes the first non-sentinel sensor. */
    method WriteCurrentTemperature(insideTemperature: real, outTemperature: real) returns (temperature: real)
      modifies hcService
      ensures temperature == PickTemperature(insideTemperature, outTemperature)
      ensures hcService.values == old(hcService.values)[CurrentTemperature := temperature]
    {
      temperature := 0.0;
      if insideTemperature < SENTINEL_THRESHOLD {
        temperature := insideTemperature;
      } else if outTemperature < SENTINEL_THRESHOLD {
        temperature := outTemperature;
      } else if insideTemperature == 126.0 || outTemperature == 126.0 {
        // both sentinels: the source logs this case and shows 0
      }
      hcService.UpdateValue(CurrentTemperature, temperature);
    }

    /** The first, mode-group write of CurrentHeaterCoolerState. */
    method WriteCurrentStateByGroup(mode: real, temperature: real, setPoint: real)
      modifies hcService
      ensures hcService.values == old(hcService.values)[CurrentHeaterCoolerState :=
        if mode in {0.0, 2.0, 3.0} then
          (if temperature < setPoint then HEATING else if temperature > setPoint then COOLING else IDLE)
        else COOLING]
    {
      if mode == 0.0 || mode == 2.0 || mode == 3.0 {
        if temperature < setPoint {
          hcService.UpdateValue(CurrentHeaterCoolerState, HEATING);
        } else if temperature > setPoint {
          hcService.UpdateValue(CurrentHeaterCoolerState, COOLING);
        } else {
          hcService.UpdateValue(CurrentHeaterCoolerState, IDLE);
        }
      } else {
        hcService.UpdateValue(CurrentHeaterCoolerState, COOLING);
      }
    }

    /** The per-mode switch: overwrites CurrentHeaterCoolerState and writes the target state. */
    method WriteStatesByMode(mode: real, temperature: real, setPoint: real)
      modifies hcService
      ensures mode in {0.0, 1.0, 2.0, 3.0, 4.0} ==>
        hcService.values == old(hcService.values)
          [CurrentHeaterCoolerState := CurrentStateOf(mode, temperature, setPoint)]
          [TargetHeaterCoolerState := TargetStateOf(mode).value]
      ensures mode !in {0.0, 1.0, 2.0, 3.0, 4.0} ==> hcService.values == old(hcService.values)
    {
      if mode == 0.0 {
        if temperature < setPoint {
          hcService.UpdateValue(CurrentHeaterCoolerState, HEATING);
        } else if temperature > setPoint {
          hcService.UpdateValue(CurrentHeaterCoolerState, COOLING);
        } else {
          hcService.UpdateValue(CurrentHeaterCoolerState, IDLE);
        }
        hcService.UpdateValue(TargetHeaterCoolerState, AUTO);
      } else if mode == 3.0 {
        if temperature < setPoint {
          hcService.UpdateValue(CurrentHeaterCoolerState, HEATING);
        } else {
          hcService.UpdateValue(CurrentHeaterCoolerState, IDLE);
        }
        hcService.UpdateValue(TargetHeaterCoolerState, HEAT);
      } else if mode == 2.0 {
        if temperature > setPoint {
          hcService.UpdateValue(CurrentHeaterCoolerState, COOLING);
        } else {
          hcService.UpdateValue(CurrentHeaterCoolerState, IDLE);
        }
        hcService.UpdateValue(TargetHeaterCoolerState, COOL);
      } else if mode == 1.0 {
        hcService.UpdateValue(CurrentHeaterCoolerState, COOLING);
        hcService.UpdateValue(TargetHeaterCoolerState, COOL);
      } else if mode == 4.0 {
        hcService.UpdateValue(CurrentHeaterCoolerState, COOLING);
        hcService.UpdateValue(TargetHeaterCoolerState, COOL);
      }
    }

    /** Both writes of CurrentHeaterCoolerState and the target state write: the last one wins. */
    method WriteHeaterCoolerStates(mode: real, temperature: real, setPoint: real)
      modifies hcService
      ensures hcService.values ==
        UpdateIfSome(old(hcService.values)[CurrentHeaterCoolerState := CurrentStateOf(mode, temperature, setPoint)],
                     TargetHeaterCoolerState, TargetStateOf(mode))
    {
      WriteCurrentStateByGroup(mode, temperature, setPoint);
      WriteStatesByMode(mode, temperature, setPoint);
    }

    /** Lines for RotationSpeed, SwingMode, both thresholds and StatusFault. */
    method WriteFanSwingThresholdsFault(p: Telemetry)
      modifies hcService
      ensures hcService.values == old(hcService.values)
        [RotationSpeed := RotationSpeedOf(p.fanSpeed)]
        [SwingMode := SwingModeOf(p.airSwingLR, p.airSwingUD)]
        [HeatingThresholdTemperature := p.temperatureSet]
        [CoolingThresholdTemperature := p.temperatureSet]
        [StatusFault := StatusFaultOf(p.online, p.errorStatusFlg)]
    {
      // fan speed, 0 meaning auto
      var rotationSpeed;
      if p.fanSpeed == 0.0 {
        rotationSpeed := 6.0;
      } else {
        rotationSpeed := p.fanSpeed;
      }
      hcService.UpdateValue(RotationSpeed, rotationSpeed);

      // swing
      if p.airSwingLR == 2.0 && p.airSwingUD == 0.0 {
        hcService.UpdateValue(SwingMode, SWING_ENABLED);
      } else {
        hcService.UpdateValue(SwingMode, SWING_DISABLED);
      }

      // both thresholds follow the set point
      hcService.UpdateValue(HeatingThresholdTemperature, p.temperatureSet);
      hcService.UpdateValue(CoolingThresholdTemperature, p.temperatureSet);

      // fault flag
      if p.online && !p.errorStatusFlg {
        hcService.UpdateValue(StatusFault, NO_FAULT);
      } else {
        hcService.UpdateValue(StatusFault, GENERAL_FAULT);
      }
    }

    /**
     * A HomeKit `set`: map it to vendor parameters, send them, and handle the
     * control response. `ack` is the value passed to HomeKit's callback, which
     * is invoked only when the vendor confirms the command.
     */
    method SetValue(cmd: Command, reply: Http<ControlResult>) returns (sent: ControlRequest, ack: Option<real>)
      modifies this, hcService
      ensures sent == ControlRequest(old(device), Payload(cmd))
      ensures ack.Some? <==> ClassifySet(reply) == Acknowledged
      ensures ack.Some? ==> ack.value == cmd.value
      ensures hcService.values == old(hcService.values)[StatusFault := if ack.Some? then NO_FAULT else GENERAL_FAULT]
      ensures scheduled == old(scheduled) + SetFollowUps(cmd, reply)
      ensures uToken == old(uToken) && device == old(device) && version == old(version)
    {
      var parameters := Payload(cmd);
      if cmd.name == "TargetHeaterCoolerState" {
        // poll again shortly so that the current state follows the new mode
        scheduled := scheduled + [Timeout(STATE_REFRESH_DELAY_MS, RefreshCall)];
      }
      sent := ControlRequest(device, parameters);
      ack := None;
      if reply.Reply? && reply.statusCode == 200 {
        if reply.body.result != Some(0.0) {
          hcService.UpdateValue(StatusFault, GENERAL_FAULT);
          // the nested 403 test only logs; the nested 401 test can never hold under status 200
          scheduled := scheduled + (if reply.statusCode == 401 then [Now(LoginCall(false))] else []);
        } else {
          ack := Some(cmd.value);
          hcService.UpdateValue(StatusFault, NO_FAULT);
        }
      } else {
        hcService.UpdateValue(StatusFault, GENERAL_FAULT);
      }
    }
  }
  /**
   * A session in the order the accessory runs it: the initial login finds
   * the only device, a poll in Cool mode above the set point, and a write of
   * the top fan slot that the device then reports back.
   */
  method ExampleSession()
  {
    var ac := new PanasonicAC(None);
    var listing := GroupBody(Some([Group(Some([DeviceEntry(Some("G1"))]))]));
    ac.Login(true, Reply(200, LoginBody(Some("token"), None)), Reply(200, listing), None);
    assert ac.device == Some("G1");
    assert ac.scheduled == [Now(LoginCall(true)), Now(RefreshCall),
                            Interval(REFRESH_INTERVAL_MS, RefreshCall), Interval(RELOGIN_INTERVAL_MS, LoginCall(false))];

    var t := Telemetry(1.0, 2.0, 24.0, 26.0, 20.0, 3.0, 1.0, 2.0, 1.0, true, false);
    ac.Refresh(Reply(200, t));
    assert ac.hcService.values[Active] == ACTIVE;
    assert ac.hcService.values[TargetHeaterCoolerState] == COOL;
    assert ac.hcService.values[CurrentTemperature] == 26.0;
    assert ac.hcService.values[CurrentHeaterCoolerState] == COOLING;

    var sent, ack := ac.SetValue(Command("RotationSpeed", 6.0), Reply(200, ControlResult(Some(0.0))));
    assert sent == ControlRequest(Some("G1"), Some(map["fanSpeed" := 0.0]));
    assert ack == Some(6.0);
    ac.Refresh(Reply(200, Adopt(t, sent.parameters.value)));
    assert ac.hcService.values[RotationSpeed] == 6.0;
  }
}
