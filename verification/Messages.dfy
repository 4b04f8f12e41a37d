/** The five message classes of server/lib/include/msg, as one type of values. */
module Messages {

  /** A std::chrono::system_clock time point: nanoseconds since the epoch. */
  type Time = int

  const SERVER_SENDER := "@server"
  const UNKNOWN_SENDER := "@unknown"

  const USER_NAME_IN_USE: nat := 1
  const MALFORMED_REQUEST_NO_TYPE: nat := 201

  datatype Instance =
    | LoginRequest(time: Time, from: string)
    | MessageRequest(time: Time, from: string, content: string)
    | LoginResponse(time: Time, from: string, joiningUsername: string)
    | MessageResponse(time: Time, from: string, originator: string, content: string)
    | ErrorResponse(time: Time, from: string, originator: string, code: nat, message: string)
  {
    predicate IsRequest() {
      LoginRequest? || MessageRequest?
    }

    /** The virtual sender(): a login response always answers with the server's tag. */
    function Sender(): string {
      if LoginResponse? then SERVER_SENDER else from
    }
  }

  /** The answer to a login with a name that is taken. */
  function InUseReply(now: Time): Instance {
    ErrorResponse(now, SERVER_SENDER, SERVER_SENDER, USER_NAME_IN_USE, "Username in use.")
  }
}
