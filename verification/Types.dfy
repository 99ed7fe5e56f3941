/** Datatypes shared by the daemon, the popup, the agent and the plugin. */
module Types {

  datatype Option<+T> = None | Some(value: T)

  datatype Result<+T> = Ok(value: T) | Err(reason: string)

  type RequestId = nat

  datatype RequestData = RequestData(client: string, user: string, privilege: string)

  datatype NotificationRequest = NotificationRequest(id: RequestId, data: RequestData)
  {
    /** The request as it crosses the socket: the user is not part of the frame. */
    function Stripped(): NotificationRequest {
      NotificationRequest(id, RequestData(data.client, "", data.privilege))
    }
  }

  /** What the popup reports. `NoAnswer` is the None of the source: nothing is sent. */
  datatype NResponseType = Allow | Deny | Never | Error | NoAnswer

  datatype NotificationResponse = NotificationResponse(id: RequestId, response: NResponseType)

  datatype UIResponseType =
    | NoOnce | NoSession | NoLife
    | YesOnce | YesSession | YesLife
    | Timeout | UIError

  /** The numeric policy types whose headers are not part of this model: the largest value the
      unsigned policy type can hold, and the two predefined answers. */
  datatype PolicyTypes = PolicyTypes(max: nat, allow: nat, deny: nat)
  {
    ghost predicate Valid() {
      16 <= max < 0x8000_0000_0000_0000 && allow <= max && deny <= max && allow != deny
    }
  }

  const ALLOW_ONCE: nat := 11
  const ALLOW_PER_SESSION: nat := 12
  const ALLOW_PER_LIFE: nat := 13
  const DENY_ONCE: nat := 14
  const DENY_PER_SESSION: nat := 15
  const DENY_PER_LIFE: nat := 16
}
