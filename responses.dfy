/**
 * How the accessory classifies vendor responses and resolves its device:
 * the branches of the poll, control and login callbacks.
 */
module Responses {
  import opened Wrappers
  import opened Vendor

  /** What a poll callback does with the response it gets. */
  datatype RefreshOutcome =
    | Reconcile(parameters: Telemetry)  // status 200: write the characteristics
    | LoginRejected                     // status 403: flag a fault
    | TokenExpired                      // status 401: flag a fault and log in again
    | OtherStatus                       // any other status: flag a fault
    | Aborted                           // transport error: reading the undefined response throws

  function ClassifyRefresh(reply: Http<Telemetry>): (r: RefreshOutcome)
    ensures r.Aborted? <==> reply.NetworkError?
    ensures r.Reconcile? <==> reply.Reply? && reply.statusCode == 200
    ensures r.Reconcile? ==> r.parameters == reply.body
    ensures r.TokenExpired? <==> reply.Reply? && reply.statusCode == 401
    ensures r.LoginRejected? <==> reply.Reply? && reply.statusCode == 403
  {
    match reply
    case NetworkError => Aborted
    case Reply(status, json) =>
      if status == 200 then Reconcile(json)
      else if status == 403 then LoginRejected
      else if status == 401 then TokenExpired
      else OtherStatus
  }

  /** What a control callback does: acknowledge HomeKit, or flag a fault. */
  datatype SetOutcome = Acknowledged | Rejected | Failed

  function ClassifySet(reply: Http<ControlResult>): (r: SetOutcome)
    ensures r == Acknowledged <==>
      reply.Reply? && reply.statusCode == 200 && reply.body.result == Some(0.0)
    ensures r == Rejected <==>
      reply.Reply? && reply.statusCode == 200 && reply.body.result != Some(0.0)
  {
    match reply
    case NetworkError => Failed
    case Reply(status, body) =>
      if status == 200 then
        if body.result != Some(0.0) then Rejected else Acknowledged
      else Failed
  }

  /**
   * The condition under which a control callback logs in again: a 401 test
   * nested inside the branch for status 200, which no response can satisfy.
   */
  function SetRelogin(reply: Http<ControlResult>): (r: bool)
    ensures !r
  {
    reply.Reply? && reply.statusCode == 200 && reply.body.result != Some(0.0)
    && reply.statusCode == 401
  }

  predicate LoginSucceeded(reply: Http<LoginBody>)
  {
    reply.Reply? && reply.statusCode == 200
  }

  /**
   * The code of a failed login, if the failure handler can read one; with a
   * transport error the body is undefined and reading it throws.
   */
  function FailureCode(reply: Http<LoginBody>): (r: Option<real>)
    requires !LoginSucceeded(reply)
    ensures reply.NetworkError? ==> r == None
    ensures reply.Reply? ==> r == reply.body.code
  {
    if reply.NetworkError? then None else reply.body.code
  }

  /** The vendor rejected the login because of the announced app version. */
  predicate VersionMismatch(reply: Http<LoginBody>)
  {
    !LoginSucceeded(reply) && FailureCode(reply) == Some(VERSION_MISMATCH)
  }

  predicate GroupListed(reply: Http<GroupBody>)
  {
    reply.Reply? && reply.statusCode == 200
  }

  /** The device number from the configuration: a missing or zero setting means 1. */
  function DeviceNumberFrom(setting: Option<int>): (n: int)
    ensures n != 0
    ensures setting.None? || setting.value == 0 ==> n == 1
    ensures setting.Some? && setting.value != 0 ==> n == setting.value
  {
    if setting.Some? && setting.value != 0 then setting.value else 1
  }

  /** Result of the device lookup: the value assigned (possibly undefined), or a thrown error. */
  datatype Lookup = Found(guid: Option<string>) | NotFound

  /**
   * `groupList[n-1].deviceIdList[n-1].deviceGuid`: one device number selects
   * both the group and the device inside it.
   */
  function DeviceLookup(body: GroupBody, n: int): (r: Lookup)
    ensures r.Found? <==>
      && body.groupList.Some?
      && 1 <= n <= |body.groupList.value|
      && body.groupList.value[n - 1].deviceIdList.Some?
      && n <= |body.groupList.value[n - 1].deviceIdList.value|
    ensures r.Found? ==> r.guid == body.groupList.value[n - 1].deviceIdList.value[n - 1].deviceGuid
  {
    if body.groupList.None? then NotFound
    else
      var groups := body.groupList.value;
      if !(0 <= n - 1 < |groups|) then NotFound
      else if groups[n - 1].deviceIdList.None? then NotFound
      else
        var devices := groups[n - 1].deviceIdList.value;
        if !(0 <= n - 1 < |devices|) then NotFound
        else Found(devices[n - 1].deviceGuid)
  }

  /** One group with one device resolves for device number 1. */
  lemma SingleDeviceResolves(guid: string)
    ensures DeviceLookup(GroupBody(Some([Group(Some([DeviceEntry(Some(guid))]))])), 1) == Found(Some(guid))
  {
  }

  /**
   * Because one number indexes both lists, the second device of the first
   * group can never be selected: number 2 asks for the second group.
   */
  lemma SecondDeviceOfFirstGroupUnreachable(a: string, b: string)
    ensures DeviceLookup(GroupBody(Some([Group(Some([DeviceEntry(Some(a)), DeviceEntry(Some(b))]))])), 2) == NotFound
    ensures forall n :: DeviceLookup(GroupBody(Some([Group(Some([DeviceEntry(Some(a)), DeviceEntry(Some(b))]))])), n)
                        != Found(Some(b)) || a == b
  {
  }
}
