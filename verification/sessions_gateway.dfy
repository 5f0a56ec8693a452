/**
 * The live-session coordinator: the connected-clients registry and the
 * per-session room data, with one pure transition per socket event. Each
 * handler returns the new state and the log of emits it sends.
 */
module SessionsGateway {
  import opened Wrappers
  import opened Schema
  import opened Channels
  import opened OrderedMap
  import SessionsService

  type Token = string

  /**
   * Live data of one session room: the current stimulus (`""` until one is
   * sent) and the samples per stimulus, stimuli in first-seen order.
   */
  datatype Room = Room(currentImage: ImageUrl, results: Entries<ImageUrl, seq<TrackedPoint>>)

  /** `connectedClients` (userId to socket id, insertion-ordered) and `sessionData`. */
  datatype Gateway = Gateway(clients: Entries<UserId, SocketId>, rooms: map<SessionId, Room>)

  const Initial: Gateway := Gateway([], map[])

  const EmptyRoom: Room := Room("", [])

  /** Each stimulus has one bucket, and a non-empty current stimulus has one. */
  predicate RoomInvariant(r: Room) {
    UniqueKeys(r.results) && (r.currentImage != "" ==> HasKey(r.results, r.currentImage))
  }

  /** At most one socket per user, and every room satisfies its invariant. */
  predicate Invariant(g: Gateway) {
    UniqueKeys(g.clients) && forall sid :: sid in g.rooms ==> RoomInvariant(g.rooms[sid])
  }

  /** The socket registered for a user, if any. */
  function AddressOf(g: Gateway, u: UserId): Option<SocketId> {
    Get(g.clients, u)
  }

  /** The samples collected so far for one stimulus of one room. */
  function Bucket(g: Gateway, sid: SessionId, url: ImageUrl): Option<seq<TrackedPoint>> {
    if sid in g.rooms then Get(g.rooms[sid].results, url) else None
  }

  datatype Step = Step(gateway: Gateway, emits: seq<Emit>)

  datatype Admission = Admitted(user: UserId) | Refused

  /**
   * `handleConnection`: a missing or empty token, or one `verify` rejects,
   * disconnects the socket and changes nothing; otherwise the user's entry
   * is set to this socket, overwriting any earlier one.
   */
  function HandleConnection(g: Gateway, socket: SocketId, token: Option<Token>, verify: Token -> Option<UserId>)
    : (r: (Gateway, Admission))
    ensures r.1.Refused? <==> token.None? || token.value == "" || verify(token.value).None?
    ensures r.1.Refused? ==> r.0 == g
    ensures r.1.Admitted? ==>
      && r.1.user == verify(token.value).value
      && AddressOf(r.0, r.1.user) == Some(socket)
      && r.0.rooms == g.rooms
    ensures Invariant(g) ==> Invariant(r.0)
  {
    if token.None? || token.value == "" then (g, Refused)
    else
      match verify(token.value)
      case None => (g, Refused)
      case Some(u) => (g.(clients := Put(g.clients, u, socket)), Admitted(u))
  }

  /** Connecting as one user leaves every other user's address unchanged. */
  lemma ConnectionKeepsOthers(g: Gateway, socket: SocketId, token: Option<Token>, verify: Token -> Option<UserId>, v: UserId)
    requires HandleConnection(g, socket, token, verify).1 != Admitted(v)
    ensures AddressOf(HandleConnection(g, socket, token, verify).0, v) == AddressOf(g, v)
  {
    var r := HandleConnection(g, socket, token, verify);
    if r.1.Admitted? {
      GetPutOther(g.clients, r.1.user, socket, v);
    }
  }

  /**
   * `handleDisconnect`: removes the first entry, in insertion order, whose
   * socket is the disconnecting one; an unknown socket changes nothing.
   */
  function HandleDisconnect(g: Gateway, socket: SocketId): (r: Gateway)
    ensures r.rooms == g.rooms
    ensures (forall i :: 0 <= i < |g.clients| ==> g.clients[i].1 != socket) ==> r == g
    ensures Invariant(g) && KeyOf(g.clients, socket).Some? ==>
              AddressOf(g, KeyOf(g.clients, socket).value) == Some(socket)
              && AddressOf(r, KeyOf(g.clients, socket).value) == None
    ensures Invariant(g) ==> Invariant(r)
  {
    match KeyOf(g.clients, socket)
    case None => g
    case Some(u) => g.(clients := Delete(g.clients, u))
  }

  /** Disconnecting a socket never removes a user registered under another socket. */
  lemma DisconnectKeepsOtherSockets(g: Gateway, socket: SocketId, u: UserId)
    requires Invariant(g)
    requires AddressOf(g, u) != Some(socket)
    ensures AddressOf(HandleDisconnect(g, socket), u) == AddressOf(g, u)
  {
    match KeyOf(g.clients, socket)
    case None =>
    case Some(k) =>
      if k != u {
        GetDeleteOther(g.clients, k, u);
      }
  }

  /**
   * Each socket is registered for at most one user: `handleConnection` runs
   * once per socket, so two users never share a socket id.
   */
  predicate OneUserPerSocket(g: Gateway) {
    UniqueValues(g.clients)
  }

  /**
   * A connection on a socket not yet registered keeps one user per socket;
   * socket.io gives every connection a new socket id.
   */
  lemma ConnectFreshSocketKeepsOneUserPerSocket(g: Gateway, socket: SocketId, token: Option<Token>, verify: Token -> Option<UserId>)
    requires OneUserPerSocket(g)
    requires forall i :: 0 <= i < |g.clients| ==> g.clients[i].1 != socket
    ensures OneUserPerSocket(HandleConnection(g, socket, token, verify).0)
  {
    var r := HandleConnection(g, socket, token, verify);
    if r.1.Admitted? {
      PutFreshValueKeepsUniqueValues(g.clients, r.1.user, socket);
    }
  }

  /** A disconnect keeps one user per socket. */
  lemma DisconnectKeepsOneUserPerSocket(g: Gateway, socket: SocketId)
    requires OneUserPerSocket(g)
    ensures OneUserPerSocket(HandleDisconnect(g, socket))
  {
    match KeyOf(g.clients, socket)
    case None =>
    case Some(u) => DeleteKeepsUniqueValues(g.clients, u);
  }

  /** After a disconnect, no user is registered at the disconnected socket any more. */
  lemma DisconnectFreesSocket(g: Gateway, socket: SocketId, u: UserId)
    requires Invariant(g) && OneUserPerSocket(g)
    ensures AddressOf(HandleDisconnect(g, socket), u) != Some(socket)
  {
    var m := g.clients;
    if HasKey(m, u) {
      var i :| 0 <= i < |m| && m[i].0 == u;
      assert AddressOf(g, u) == Some(m[i].1);
      match KeyOf(m, socket)
      case None =>
        assert m[i].1 != socket;
      case Some(k) =>
        if k != u {
          GetDeleteOther(m, k, u);
          var j :| 0 <= j < |m| && m[j] == (k, socket);
          assert i != j;
          assert m[i].1 != socket;
        }
    }
  }

  /** Re-registering then disconnecting the stale socket keeps the newer registration. */
  lemma StaleDisconnectKeepsNewer(g: Gateway, u: UserId, h1: SocketId, h2: SocketId, verify: Token -> Option<UserId>, t1: Token, t2: Token)
    requires Invariant(g) && h1 != h2
    requires t1 != "" && t2 != "" && verify(t1) == Some(u) && verify(t2) == Some(u)
    ensures var g1 := HandleConnection(g, h1, Some(t1), verify).0;
            var g2 := HandleConnection(g1, h2, Some(t2), verify).0;
            AddressOf(HandleDisconnect(g2, h1), u) == Some(h2)
  {
    var g1 := HandleConnection(g, h1, Some(t1), verify).0;
    var g2 := HandleConnection(g1, h2, Some(t2), verify).0;
    DisconnectKeepsOtherSockets(g2, h1, u);
  }

  /** `join_session`: creates an empty room only when the session has none. */
  function HandleJoinSession(g: Gateway, sid: SessionId): (r: Step)
    ensures sid in r.gateway.rooms
    ensures sid in g.rooms ==> r.gateway == g
    ensures sid !in g.rooms ==> r.gateway == g.(rooms := g.rooms[sid := EmptyRoom])
    ensures r.emits == []
    ensures Invariant(g) ==> Invariant(r.gateway)
  {
    if sid in g.rooms then Step(g, [])
    else Step(g.(rooms := g.rooms[sid := EmptyRoom]), [])
  }

  /** Joining twice is joining once: a re-join never resets collected data. */
  lemma JoinIdempotent(g: Gateway, sid: SessionId)
    ensures HandleJoinSession(HandleJoinSession(g, sid).gateway, sid) == HandleJoinSession(g, sid)
  {
  }

  /** `start_calibration`: broadcasts `init_calibration` to the whole room; no state. */
  function HandleStartCalibration(g: Gateway, sid: SessionId): (r: Step)
    ensures r.gateway == g
    ensures r.emits == [Emit(SessionRoom(sid), InitCalibration)]
  {
    Step(g, [Emit(SessionRoom(sid), InitCalibration)])
  }

  /**
   * `calibration_done`: keeps no calibration record and broadcasts
   * `user_calibrated` carrying the reporting socket's id (not a user id).
   */
  function HandleCalibrationDone(g: Gateway, socket: SocketId, sid: SessionId): (r: Step)
    ensures r.gateway == g
    ensures r.emits == [Emit(SessionRoom(sid), UserCalibrated(socket))]
  {
    Step(g, [Emit(SessionRoom(sid), UserCalibrated(socket))])
  }

  /**
   * `send_image`: on an existing room, the image becomes current and gets an
   * empty bucket only if it has none; a missing room is left untouched. The
   * image is broadcast to the whole room either way.
   */
  function HandleSendImage(g: Gateway, sid: SessionId, url: ImageUrl): (r: Step)
    ensures r.gateway.rooms.Keys == g.rooms.Keys
    ensures sid !in g.rooms ==> r.gateway == g
    ensures sid in g.rooms ==>
      var before := g.rooms[sid];
      var after := r.gateway.rooms[sid];
      && r.gateway == g.(rooms := g.rooms[sid := after])
      && after.currentImage == url
      && Get(after.results, url) == (if HasKey(before.results, url) then Get(before.results, url) else Some([]))
      && (forall u :: u != url ==> Get(after.results, u) == Get(before.results, u))
      && Keys(after.results) == (if HasKey(before.results, url) then Keys(before.results) else Keys(before.results) + [url])
    ensures r.emits == [Emit(SessionRoom(sid), NewImage(url))]
    ensures Invariant(g) ==> Invariant(r.gateway)
  {
    if sid !in g.rooms then Step(g, [Emit(SessionRoom(sid), NewImage(url))])
    else
      var room := g.rooms[sid];
      var results := if HasKey(room.results, url) then room.results else Put(room.results, url, []);
      KeysAfterPut(room.results, url, []);
      assert forall u :: u != url ==> Get(results, u) == Get(room.results, u) by {
        forall u | u != url ensures Get(results, u) == Get(room.results, u) {
          GetPutOther(room.results, url, [], u);
        }
      }
      assert HasKey(results, url);
      Step(g.(rooms := g.rooms[sid := Room(url, results)]), [Emit(SessionRoom(sid), NewImage(url))])
  }

  /** A sample is stored when the room exists, has a current image, and that image has a bucket. */
  predicate Records(g: Gateway, sid: SessionId) {
    sid in g.rooms && g.rooms[sid].currentImage != "" && HasKey(g.rooms[sid].results, g.rooms[sid].currentImage)
  }

  /**
   * `gaze_data`: appends one sample, stamped `now` and tagged with the
   * sender's socket, to the current image's bucket; a no-op without a room
   * or a current image. The sample goes to the room except the sender.
   */
  function HandleGazeData(g: Gateway, socket: SocketId, sid: SessionId, x: real, y: real, now: int): (r: Step)
    ensures r.gateway.rooms.Keys == g.rooms.Keys
    ensures !Records(g, sid) ==> r.gateway == g
    ensures Records(g, sid) ==>
      var before := g.rooms[sid];
      var after := r.gateway.rooms[sid];
      && r.gateway == g.(rooms := g.rooms[sid := after])
      && after.currentImage == before.currentImage
      && Get(after.results, before.currentImage) == Some(Get(before.results, before.currentImage).value + [TrackedPoint(x, y, now, socket)])
      && (forall u :: u != before.currentImage ==> Get(after.results, u) == Get(before.results, u))
      && Keys(after.results) == Keys(before.results)
    ensures Invariant(g) && sid in g.rooms && g.rooms[sid].currentImage != "" ==> Records(g, sid)
    ensures r.emits == [Emit(SessionRoomExcept(sid, socket), ReceiveGaze(x, y, socket))]
    ensures Invariant(g) ==> Invariant(r.gateway)
  {
    var emits := [Emit(SessionRoomExcept(sid, socket), ReceiveGaze(x, y, socket))];
    if sid in g.rooms && g.rooms[sid].currentImage != "" then
      var room := g.rooms[sid];
      match Get(room.results, room.currentImage)
      case None => Step(g, emits)
      case Some(points) =>
        var results := Put(room.results, room.currentImage, points + [TrackedPoint(x, y, now, socket)]);
        KeysAfterPut(room.results, room.currentImage, points + [TrackedPoint(x, y, now, socket)]);
        assert forall u :: u != room.currentImage ==> Get(results, u) == Get(room.results, u) by {
          forall u | u != room.currentImage ensures Get(results, u) == Get(room.results, u) {
            GetPutOther(room.results, room.currentImage, points + [TrackedPoint(x, y, now, socket)], u);
          }
        }
        Step(g.(rooms := g.rooms[sid := room.(results := results)]), emits)
    else Step(g, emits)
  }

  /** The room's buckets as `{imageUrl, gazePoints}` records, in first-seen image order. */
  function Snapshot(room: Room): (r: seq<TrackedResult>)
    ensures |r| == |room.results|
    ensures forall i :: 0 <= i < |r| ==> r[i].imageUrl == Keys(room.results)[i]
    ensures UniqueKeys(room.results) ==>
      forall i :: 0 <= i < |r| ==> Get(room.results, r[i].imageUrl) == Some(r[i].gazePoints)
  {
    seq(|room.results|, i requires 0 <= i < |room.results| => TrackedResult(room.results[i].0, room.results[i].1))
  }

  datatype EndStep = EndStep(gateway: Gateway, store: SessionsService.Store, persisted: seq<TrackedResult>, emits: seq<Emit>)

  /**
   * `end_session`: snapshots the room (nothing when it has none), hands the
   * snapshot to `finishSession`, broadcasts the updated document to the room,
   * then deletes the room.
   */
  function HandleEndSession(g: Gateway, store: SessionsService.Store, sid: SessionId): (r: EndStep)
    ensures r.persisted == if sid in g.rooms then Snapshot(g.rooms[sid]) else []
    ensures r.store == SessionsService.FinishSession(store, sid, r.persisted).0
    ensures r.emits == [Emit(SessionRoom(sid), SessionEnded(SessionsService.FinishSession(store, sid, r.persisted).1))]
    ensures sid !in r.gateway.rooms
    ensures r.gateway == g.(rooms := g.rooms - {sid})
    ensures Invariant(g) ==> Invariant(r.gateway)
  {
    var persisted := if sid in g.rooms then Snapshot(g.rooms[sid]) else [];
    var (store', updated) := SessionsService.FinishSession(store, sid, persisted);
    EndStep(g.(rooms := g.rooms - {sid}), store', persisted, [Emit(SessionRoom(sid), SessionEnded(updated))])
  }

  /**
   * A second `end_session` finds no room and hands an empty result list to
   * `finishSession`, which overwrites the results the first call saved.
   */
  lemma RepeatedEndSessionPersistsNothing(g: Gateway, store: SessionsService.Store, sid: SessionId)
    requires sid in store
    ensures var first := HandleEndSession(g, store, sid);
            var second := HandleEndSession(first.gateway, first.store, sid);
            && second.persisted == []
            && second.store[sid].results == []
            && second.store[sid].status == Completed
  {
  }
}
