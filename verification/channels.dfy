/**
 * The two directions of the live event channel: requests a client emits to the
 * coordinator, and the events the coordinator emits, each addressed to a scope
 * (a session room, a session room minus the sender, or one user's private
 * channel). Emits are recorded as a log; delivery is not modelled.
 */
module Channels {
  import opened Wrappers
  import opened Schema

  datatype Scope =
    | SessionRoom(session: SessionId)
    | SessionRoomExcept(session: SessionId, sender: SocketId)
    | UserChannel(user: UserId)
  {
    /** The transport's channel name the scope addresses. */
    function Channel(): string {
      match this
      case SessionRoom(s) => "session_" + s
      case SessionRoomExcept(s, _) => "session_" + s
      case UserChannel(u) => "user_" + u
    }
  }

  datatype OutEvent =
    | InitCalibration
    | UserCalibrated(userId: SocketId)
    | NewImage(imageUrl: ImageUrl)
    | ReceiveGaze(x: real, y: real, userId: SocketId)
    | SessionEnded(session: Option<Session>)
    | NewInvitation(invitation: Session)
  {
    function Name(): string {
      match this
      case InitCalibration => "init_calibration"
      case UserCalibrated(_) => "user_calibrated"
      case NewImage(_) => "new_image"
      case ReceiveGaze(_, _, _) => "receive_gaze"
      case SessionEnded(_) => "session_ended"
      case NewInvitation(_) => "new_invitation"
    }
  }

  /** One broadcast: `(scope, eventName, payload)`. */
  datatype Emit = Emit(scope: Scope, event: OutEvent)

  /** What a client sends to the coordinator. */
  datatype Request =
    | JoinSession(session: SessionId)
    | StartCalibration(session: SessionId)
    | CalibrationDone(session: SessionId)
    | SendImage(session: SessionId, imageUrl: ImageUrl)
    | GazeData(session: SessionId, x: real, y: real)
    | EndSession(session: SessionId)

  /**
   * The coordinator's `notifyInvitation`: a `new_invitation` carrying the
   * session, addressed to the invited user's private channel whether or not
   * that user is connected.
   */
  function NotifyInvitation(user: UserId, session: Session): (e: Emit)
    ensures e.scope.Channel() == "user_" + user
    ensures e.event.Name() == "new_invitation" && e.event.invitation == session
  {
    Emit(UserChannel(user), NewInvitation(session))
  }

  /** A session room and a private user channel never share a channel name. */
  lemma RoomAndUserChannelsDisjoint(s: SessionId, u: UserId)
    ensures SessionRoom(s).Channel() != UserChannel(u).Channel()
  {
    assert SessionRoom(s).Channel()[0] == 's';
    assert UserChannel(u).Channel()[0] == 'u';
  }
}
