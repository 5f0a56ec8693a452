/**
 * The persisted session document: a title, an owning admin, the ordered list of
 * invitees, a lifecycle status and the final gaze results, with the schema's
 * enumerations and defaults as datatype constructors.
 */
module Schema {

  type UserId = string
  type SessionId = string
  type SocketId = string
  type ImageUrl = string

  /** Invitee status: one of `invited`, `joined`; nothing ever writes `joined`. */
  datatype InviteeStatus = Invited | Joined

  /** Session status: one of `active`, `completed`. */
  datatype SessionStatus = Active | Completed

  const DefaultInviteeStatus: InviteeStatus := Invited
  const DefaultSessionStatus: SessionStatus := Active

  datatype Invitee = Invitee(user: UserId, status: InviteeStatus)

  /** A stored gaze sample: percentage-of-viewport coordinates and a capture time. */
  datatype GazePoint = GazePoint(x: real, y: real, timestamp: int)

  /** The samples collected while one stimulus image was current. */
  datatype ImageResult = ImageResult(imageUrl: ImageUrl, gazePoints: seq<GazePoint>)

  /** A session document; `createdAt` is the timestamp the schema's `timestamps` option adds. */
  datatype Session = Session(
    id: SessionId,
    title: string,
    admin: UserId,
    invitees: seq<Invitee>,
    status: SessionStatus,
    results: seq<ImageResult>,
    createdAt: int)

  /**
   * A sample as the live coordinator records it before it is saved: the
   * schema's three fields plus the socket that reported it.
   */
  datatype TrackedPoint = TrackedPoint(x: real, y: real, timestamp: int, socket: SocketId)

  datatype TrackedResult = TrackedResult(imageUrl: ImageUrl, gazePoints: seq<TrackedPoint>)

  /** The schema's `required` fields are present (a required string may not be empty). */
  predicate HasRequiredFields(s: Session) {
    s.title != "" && s.admin != ""
  }

  predicate IsInvitee(s: Session, u: UserId) {
    exists i :: 0 <= i < |s.invitees| && s.invitees[i].user == u
  }

  /** No user appears twice among the invitees. */
  predicate UniqueInvitees(s: Session) {
    forall i, j :: 0 <= i < j < |s.invitees| ==> s.invitees[i].user != s.invitees[j].user
  }

  /** Casts one recorded sample to the schema's point shape, which has no socket field. */
  function CastPoint(p: TrackedPoint): (g: GazePoint)
    ensures g.x == p.x && g.y == p.y && g.timestamp == p.timestamp
  {
    GazePoint(p.x, p.y, p.timestamp)
  }

  /**
   * Casts the coordinator's results to the schema's shape: the same images in
   * the same order, each with the same samples in the same order, the
   * reporting socket dropped because the schema does not declare it.
   */
  function CastResults(raw: seq<TrackedResult>): (r: seq<ImageResult>)
    ensures |r| == |raw|
    ensures forall i :: 0 <= i < |r| ==>
      && r[i].imageUrl == raw[i].imageUrl
      && |r[i].gazePoints| == |raw[i].gazePoints|
      && forall j :: 0 <= j < |r[i].gazePoints| ==>
           r[i].gazePoints[j] == GazePoint(raw[i].gazePoints[j].x, raw[i].gazePoints[j].y, raw[i].gazePoints[j].timestamp)
  {
    seq(|raw|, i requires 0 <= i < |raw| =>
      ImageResult(raw[i].imageUrl, seq(|raw[i].gazePoints|, j requires 0 <= j < |raw[i].gazePoints| => CastPoint(raw[i].gazePoints[j]))))
  }
}
