/**
 * The coordinator driven by a sequence of inbound socket events: one dispatch
 * function, its run over a trace, and properties of whole traces.
 */
module GatewayTraces {
  import opened Wrappers
  import opened Schema
  import opened Channels
  import opened OrderedMap
  import opened SessionsGateway
  import SessionsService

  /** The coordinator's live state together with the session store it persists to. */
  datatype System = System(gateway: Gateway, store: SessionsService.Store)

  /** One inbound event on one socket. */
  datatype Inbound =
    | Connect(socket: SocketId, token: Option<Token>)
    | Disconnect(socket: SocketId)
    | Receive(socket: SocketId, request: Request)

  /** An inbound event with the server clock reading when it is handled. */
  datatype Timed = Timed(event: Inbound, now: int)

  predicate Good(sys: System) {
    Invariant(sys.gateway) && SessionsService.WellFormed(sys.store)
  }

  /** Routes one event to its handler. */
  function Apply(sys: System, ev: Inbound, now: int, verify: Token -> Option<UserId>): (r: (System, seq<Emit>))
    ensures Good(sys) ==> Good(r.0)
    ensures !(ev.Receive? && ev.request.EndSession?) ==> r.0.store == sys.store
    ensures ev.Receive? ==>
      forall e :: e in r.1 ==>
        if e.event.ReceiveGaze?
        then e.scope == SessionRoomExcept(ev.request.session, ev.socket)
        else e.scope == SessionRoom(ev.request.session)
    ensures !ev.Receive? ==> r.1 == []
  {
    match ev
    case Connect(h, t) => (sys.(gateway := HandleConnection(sys.gateway, h, t, verify).0), [])
    case Disconnect(h) => (sys.(gateway := HandleDisconnect(sys.gateway, h)), [])
    case Receive(h, req) =>
      match req
      case JoinSession(sid) =>
        var s := HandleJoinSession(sys.gateway, sid);
        (sys.(gateway := s.gateway), s.emits)
      case StartCalibration(sid) =>
        var s := HandleStartCalibration(sys.gateway, sid);
        (sys.(gateway := s.gateway), s.emits)
      case CalibrationDone(sid) =>
        var s := HandleCalibrationDone(sys.gateway, h, sid);
        (sys.(gateway := s.gateway), s.emits)
      case SendImage(sid, url) =>
        var s := HandleSendImage(sys.gateway, sid, url);
        (sys.(gateway := s.gateway), s.emits)
      case GazeData(sid, x, y) =>
        var s := HandleGazeData(sys.gateway, h, sid, x, y, now);
        (sys.(gateway := s.gateway), s.emits)
      case EndSession(sid) =>
        var e := HandleEndSession(sys.gateway, sys.store, sid);
        (System(e.gateway, e.store), e.emits)
  }

  /** Handles the events of a trace in order, concatenating their emits. */
  function Run(sys: System, trace: seq<Timed>, verify: Token -> Option<UserId>): (System, seq<Emit>)
    decreases |trace|
  {
    if trace == [] then (sys, [])
    else
      var (s1, e1) := Apply(sys, trace[0].event, trace[0].now, verify);
      var (s2, e2) := Run(s1, trace[1..], verify);
      (s2, e1 + e2)
  }

  /** Every trace keeps the registry, the rooms and the store well-formed. */
  lemma {:induction false} RunKeepsGood(sys: System, trace: seq<Timed>, verify: Token -> Option<UserId>)
    requires Good(sys)
    ensures Good(Run(sys, trace, verify).0)
    decreases |trace|
  {
    if trace != [] {
      var (s1, _) := Apply(sys, trace[0].event, trace[0].now, verify);
      RunKeepsGood(s1, trace[1..], verify);
    }
  }

  /** Only `end_session` writes to the store. */
  lemma {:induction false} StoreChangesOnlyAtEndSession(sys: System, trace: seq<Timed>, verify: Token -> Option<UserId>)
    requires forall i :: 0 <= i < |trace| ==> !(trace[i].event.Receive? && trace[i].event.request.EndSession?)
    ensures Run(sys, trace, verify).0.store == sys.store
    decreases |trace|
  {
    if trace != [] {
      var (s1, _) := Apply(sys, trace[0].event, trace[0].now, verify);
      StoreChangesOnlyAtEndSession(s1, trace[1..], verify);
    }
  }

  /** One `gaze_data` event per sample, all from one socket to one session. */
  function GazeTrace(socket: SocketId, sid: SessionId, samples: seq<(real, real, int)>): (t: seq<Timed>)
    ensures |t| == |samples|
  {
    seq(|samples|, i requires 0 <= i < |samples| =>
      Timed(Receive(socket, GazeData(sid, samples[i].0, samples[i].1)), samples[i].2))
  }

  /** The samples as the coordinator records them. */
  function Tracked(socket: SocketId, samples: seq<(real, real, int)>): seq<TrackedPoint> {
    seq(|samples|, i requires 0 <= i < |samples| => TrackedPoint(samples[i].0, samples[i].1, samples[i].2, socket))
  }

  /** A `gaze_data` event is handled by `HandleGazeData` alone. */
  lemma ApplyGaze(sys: System, h: SocketId, sid: SessionId, x: real, y: real, now: int, verify: Token -> Option<UserId>)
    ensures Apply(sys, Receive(h, GazeData(sid, x, y)), now, verify).0
         == sys.(gateway := HandleGazeData(sys.gateway, h, sid, x, y, now).gateway)
  {
  }

  /** The coordinator state after handling each sample in turn. */
  function GazeFold(g: Gateway, socket: SocketId, sid: SessionId, samples: seq<(real, real, int)>): Gateway
    decreases |samples|
  {
    if samples == [] then g
    else GazeFold(HandleGazeData(g, socket, sid, samples[0].0, samples[0].1, samples[0].2).gateway, socket, sid, samples[1..])
  }

  /** Running a gaze trace touches only the coordinator, sample by sample. */
  lemma {:induction false} RunGazeTrace(sys: System, socket: SocketId, sid: SessionId, samples: seq<(real, real, int)>, verify: Token -> Option<UserId>)
    ensures Run(sys, GazeTrace(socket, sid, samples), verify).0 == sys.(gateway := GazeFold(sys.gateway, socket, sid, samples))
    decreases |samples|
  {
    var t := GazeTrace(socket, sid, samples);
    if samples == [] {
      assert t == [];
    } else {
      assert t[1..] == GazeTrace(socket, sid, samples[1..]);
      ApplyGaze(sys, socket, sid, samples[0].0, samples[0].1, samples[0].2, verify);
      var g1 := HandleGazeData(sys.gateway, socket, sid, samples[0].0, samples[0].1, samples[0].2).gateway;
      RunGazeTrace(sys.(gateway := g1), socket, sid, samples[1..], verify);
    }
  }

  /** A room's current image, once set, has a bucket. */
  lemma BucketOfCurrent(g: Gateway, sid: SessionId)
    requires Invariant(g) && sid in g.rooms && g.rooms[sid].currentImage != ""
    ensures var b := Bucket(g, sid, g.rooms[sid].currentImage); b.Some? && b == Some(b.value + [])
  {
    assert RoomInvariant(g.rooms[sid]);
    var b := Bucket(g, sid, g.rooms[sid].currentImage);
    assert b.value + [] == b.value;
  }

  lemma TrackedCons(socket: SocketId, samples: seq<(real, real, int)>)
    requires samples != []
    ensures Tracked(socket, samples)
         == [TrackedPoint(samples[0].0, samples[0].1, samples[0].2, socket)] + Tracked(socket, samples[1..])
  {
    var t := Tracked(socket, samples);
    var u := [TrackedPoint(samples[0].0, samples[0].1, samples[0].2, socket)] + Tracked(socket, samples[1..]);
    assert forall i :: 0 <= i < |t| ==> t[i] == u[i];
  }

  lemma AppendAssoc<T>(a: seq<T>, x: T, b: seq<T>)
    ensures (a + [x]) + b == a + ([x] + b)
  {
  }

  /** One sample is appended to the current image's bucket. */
  lemma GazeStepAppends(g: Gateway, socket: SocketId, sid: SessionId, x: real, y: real, now: int)
    requires Invariant(g) && sid in g.rooms && g.rooms[sid].currentImage != ""
    ensures var g1 := HandleGazeData(g, socket, sid, x, y, now).gateway;
            var img := g.rooms[sid].currentImage;
            && Invariant(g1)
            && sid in g1.rooms
            && g1.rooms[sid].currentImage == img
            && Keys(g1.rooms[sid].results) == Keys(g.rooms[sid].results)
            && Bucket(g1, sid, img) == Some(Bucket(g, sid, img).value + [TrackedPoint(x, y, now, socket)])
  {
  }

  /** Samples land in the current image's bucket in arrival order; the current image stays. */
  lemma {:induction false} GazeFoldAppends(g: Gateway, socket: SocketId, sid: SessionId, samples: seq<(real, real, int)>)
    requires Invariant(g) && sid in g.rooms && g.rooms[sid].currentImage != ""
    ensures var after := GazeFold(g, socket, sid, samples);
            var img := g.rooms[sid].currentImage;
            && Invariant(after)
            && sid in after.rooms
            && after.rooms[sid].currentImage == img
            && Keys(after.rooms[sid].results) == Keys(g.rooms[sid].results)
            && Bucket(after, sid, img) == Some(Bucket(g, sid, img).value + Tracked(socket, samples))
    decreases |samples|
  {
    var img := g.rooms[sid].currentImage;
    assert Records(g, sid);
    if samples == [] {
      assert GazeFold(g, socket, sid, samples) == g;
      assert Tracked(socket, samples) == [];
      BucketOfCurrent(g, sid);
    } else {
      var g1 := HandleGazeData(g, socket, sid, samples[0].0, samples[0].1, samples[0].2).gateway;
      GazeStepAppends(g, socket, sid, samples[0].0, samples[0].1, samples[0].2);
      GazeFoldAppends(g1, socket, sid, samples[1..]);
      TrackedCons(socket, samples);
      AppendAssoc(Bucket(g, sid, img).value, TrackedPoint(samples[0].0, samples[0].1, samples[0].2, socket), Tracked(socket, samples[1..]));
    }
  }

  /** No sample reaches the bucket of an image that is not current. */
  lemma {:induction false} GazeFoldKeepsOtherBuckets(g: Gateway, socket: SocketId, sid: SessionId, samples: seq<(real, real, int)>, u: ImageUrl)
    requires Invariant(g) && sid in g.rooms && g.rooms[sid].currentImage != u
    ensures Bucket(GazeFold(g, socket, sid, samples), sid, u) == Bucket(g, sid, u)
    decreases |samples|
  {
    if samples != [] {
      var g1 := HandleGazeData(g, socket, sid, samples[0].0, samples[0].1, samples[0].2).gateway;
      GazeFoldKeepsOtherBuckets(g1, socket, sid, samples[1..], u);
    }
  }

  /**
   * With a current image set, a stream of samples lands in that image's
   * bucket in arrival order, and no other image's bucket changes.
   */
  lemma SamplesRecordedInOrder(sys: System, socket: SocketId, sid: SessionId, samples: seq<(real, real, int)>, verify: Token -> Option<UserId>, u: ImageUrl)
    requires Good(sys) && sid in sys.gateway.rooms && sys.gateway.rooms[sid].currentImage != ""
    ensures var after := Run(sys, GazeTrace(socket, sid, samples), verify).0.gateway;
            var img := sys.gateway.rooms[sid].currentImage;
            && Bucket(after, sid, img) == Some(Bucket(sys.gateway, sid, img).value + Tracked(socket, samples))
            && (u != img ==> Bucket(after, sid, u) == Bucket(sys.gateway, sid, u))
  {
    RunGazeTrace(sys, socket, sid, samples, verify);
    GazeFoldAppends(sys.gateway, socket, sid, samples);
    if u != sys.gateway.rooms[sid].currentImage {
      GazeFoldKeepsOtherBuckets(sys.gateway, socket, sid, samples, u);
    }
  }

  /**
   * Switching the stimulus: after `send_image(img2)`, samples never reach
   * the bucket of any other image, whatever the client believes is shown.
   */
  lemma SwitchedImageBucketFrozen(sys: System, socket: SocketId, sid: SessionId, img2: ImageUrl, img1: ImageUrl,
                                  samples: seq<(real, real, int)>, verify: Token -> Option<UserId>)
    requires Good(sys) && sid in sys.gateway.rooms && img2 != "" && img1 != img2
    ensures var switched := HandleSendImage(sys.gateway, sid, img2).gateway;
            var after := Run(System(switched, sys.store), GazeTrace(socket, sid, samples), verify).0.gateway;
            Bucket(after, sid, img1) == Bucket(sys.gateway, sid, img1)
  {
    var switched := HandleSendImage(sys.gateway, sid, img2).gateway;
    RunGazeTrace(System(switched, sys.store), socket, sid, samples, verify);
    GazeFoldKeepsOtherBuckets(switched, socket, sid, samples, img1);
  }

  /** A sample sent to a freshly joined room, before any image, is dropped. */
  lemma SampleBeforeImageDropped(g: Gateway, socket: SocketId, sid: SessionId, x: real, y: real, now: int)
    requires sid !in g.rooms
    ensures var joined := HandleJoinSession(g, sid).gateway;
            HandleGazeData(joined, socket, sid, x, y, now).gateway == joined
  {
  }

  /**
   * The documented walkthrough: an admin creates "Test A" and invites a
   * participant, who is notified; both connect and join; calibration is
   * started and acknowledged, each broadcast to the room; `cat.png` is shown
   * to the room; three samples arrive, each forwarded to the room but not
   * back to the participant; the admin ends the session. The stored session is completed with exactly
   * those samples, in order, under `cat.png`, and the room is gone. Any
   * credential check that accepts the admin's and the participant's tokens
   * will do.
   */
  lemma Walkthrough(verify: Token -> Option<UserId>)
    requires verify("tokA") == Some("admin1") && verify("tokU") == Some("user1")
    ensures
      var (store1, _) := SessionsService.Create(map[], "s1", "Test A", "admin1", 0).value;
      var invitation := SessionsService.InviteUser(store1, "s1", "user1").value;
      var g1 := HandleConnection(Initial, "hA", Some("tokA"), verify).0;
      var g2 := HandleConnection(g1, "hU", Some("tokU"), verify).0;
      var g3 := HandleJoinSession(HandleJoinSession(g2, "s1").gateway, "s1").gateway;
      var started := HandleStartCalibration(g3, "s1");
      var done := HandleCalibrationDone(started.gateway, "hU", "s1");
      var sent := HandleSendImage(done.gateway, "s1", "cat.png");
      var shown := sent.gateway;
      var g4 := GazeFold(shown, "hU", "s1", [(10.0, 20.0, 6), (15.0, 25.0, 7), (90.0, 95.0, 8)]);
      var end := HandleEndSession(g4, invitation.store, "s1");
      && invitation.emits == [Emit(UserChannel("user1"), NewInvitation(invitation.session))]
      && AddressOf(g2, "user1") == Some("hU")
      && started.emits == [Emit(SessionRoom("s1"), InitCalibration)]
      && done.emits == [Emit(SessionRoom("s1"), UserCalibrated("hU"))]
      && sent.emits == [Emit(SessionRoom("s1"), NewImage("cat.png"))]
      && HandleGazeData(shown, "hU", "s1", 10.0, 20.0, 6).emits
         == [Emit(SessionRoomExcept("s1", "hU"), ReceiveGaze(10.0, 20.0, "hU"))]
      && "s1" in end.store
      && end.store["s1"].status == Completed
      && end.store["s1"].invitees == [Invitee("user1", Invited)]
      && end.store["s1"].results
         == [ImageResult("cat.png", [GazePoint(10.0, 20.0, 6), GazePoint(15.0, 25.0, 7), GazePoint(90.0, 95.0, 8)])]
      && end.emits == [Emit(SessionRoom("s1"), SessionEnded(Some(end.store["s1"])))]
      && "s1" !in end.gateway.rooms
  {
    var (store1, _) := SessionsService.Create(map[], "s1", "Test A", "admin1", 0).value;
    var invitation := SessionsService.InviteUser(store1, "s1", "user1").value;
    WalkthroughInvite(store1, invitation);
    var g1 := HandleConnection(Initial, "hA", Some("tokA"), verify).0;
    var g2 := HandleConnection(g1, "hU", Some("tokU"), verify).0;
    ConnectionKeepsOthers(Initial, "hA", Some("tokA"), verify, "user1");
    var g3 := HandleJoinSession(HandleJoinSession(g2, "s1").gateway, "s1").gateway;
    var shown := HandleSendImage(g3, "s1", "cat.png").gateway;
    WalkthroughImage(g2, g3, shown);
    WalkthroughTracking(shown, invitation.store);
  }

  /**
   * The tracking half of the walkthrough: from a room showing `cat.png` with
   * an empty bucket, three samples and `end_session` store exactly those
   * samples and close the room.
   */
  lemma WalkthroughTracking(shown: Gateway, store: SessionsService.Store)
    requires Invariant(shown) && "s1" in shown.rooms && "s1" in store
    requires shown.rooms["s1"] == Room("cat.png", [("cat.png", [])])
    ensures
      var g4 := GazeFold(shown, "hU", "s1", [(10.0, 20.0, 6), (15.0, 25.0, 7), (90.0, 95.0, 8)]);
      var end := HandleEndSession(g4, store, "s1");
      && "s1" in end.store
      && end.store["s1"].status == Completed
      && end.store["s1"].invitees == store["s1"].invitees
      && end.store["s1"].results
         == [ImageResult("cat.png", [GazePoint(10.0, 20.0, 6), GazePoint(15.0, 25.0, 7), GazePoint(90.0, 95.0, 8)])]
      && end.emits == [Emit(SessionRoom("s1"), SessionEnded(Some(end.store["s1"])))]
      && "s1" !in end.gateway.rooms
  {
    var samples := [(10.0, 20.0, 6), (15.0, 25.0, 7), (90.0, 95.0, 8)];
    var g4 := GazeFold(shown, "hU", "s1", samples);
    WalkthroughSamples(shown, samples, g4);
    WalkthroughEnd(g4, store);
  }

  lemma WalkthroughInvite(store1: SessionsService.Store, invitation: SessionsService.Invitation)
    requires SessionsService.Create(map[], "s1", "Test A", "admin1", 0).Success?
    requires store1 == SessionsService.Create(map[], "s1", "Test A", "admin1", 0).value.0
    requires SessionsService.InviteUser(store1, "s1", "user1") == Success(invitation)
    ensures "s1" in invitation.store && invitation.store["s1"].invitees == [Invitee("user1", Invited)]
    ensures invitation.emits == [Emit(UserChannel("user1"), NewInvitation(invitation.session))]
  {
    assert !IsInvitee(store1["s1"], "user1");
  }

  lemma WalkthroughImage(g2: Gateway, g3: Gateway, shown: Gateway)
    requires g2.rooms == map[]
    requires g3 == HandleJoinSession(HandleJoinSession(g2, "s1").gateway, "s1").gateway
    requires shown == HandleSendImage(g3, "s1", "cat.png").gateway
    ensures Invariant(g2) ==> Invariant(shown)
    ensures shown.rooms["s1"] == Room("cat.png", [("cat.png", [])])
  {
    assert g3.rooms["s1"] == EmptyRoom;
  }

  lemma WalkthroughSamples(shown: Gateway, samples: seq<(real, real, int)>, g4: Gateway)
    requires Invariant(shown) && "s1" in shown.rooms
    requires shown.rooms["s1"] == Room("cat.png", [("cat.png", [])])
    requires samples == [(10.0, 20.0, 6), (15.0, 25.0, 7), (90.0, 95.0, 8)]
    requires g4 == GazeFold(shown, "hU", "s1", samples)
    ensures "s1" in g4.rooms
    ensures g4.rooms["s1"].results == [("cat.png", Tracked("hU", samples))]
  {
    GazeFoldAppends(shown, "hU", "s1", samples);
    var results := g4.rooms["s1"].results;
    var t := Tracked("hU", samples);
    assert Bucket(shown, "s1", "cat.png") == Some([]);
    assert [] + t == t;
    assert Keys(results) == ["cat.png"];
    assert |results| == 1 && results[0].0 == "cat.png";
    assert Get(results, "cat.png") == Some(t);
    assert results[0].1 == t;
  }

  lemma WalkthroughEnd(g4: Gateway, store: SessionsService.Store)
    requires "s1" in store
    requires "s1" in g4.rooms
    requires g4.rooms["s1"].results == [("cat.png", Tracked("hU", [(10.0, 20.0, 6), (15.0, 25.0, 7), (90.0, 95.0, 8)]))]
    ensures var end := HandleEndSession(g4, store, "s1");
      && "s1" in end.store
      && end.store["s1"].status == Completed
      && end.store["s1"].invitees == store["s1"].invitees
      && end.store["s1"].results
         == [ImageResult("cat.png", [GazePoint(10.0, 20.0, 6), GazePoint(15.0, 25.0, 7), GazePoint(90.0, 95.0, 8)])]
      && end.emits == [Emit(SessionRoom("s1"), SessionEnded(Some(end.store["s1"])))]
      && "s1" !in end.gateway.rooms
  {
    var tracked := Tracked("hU", [(10.0, 20.0, 6), (15.0, 25.0, 7), (90.0, 95.0, 8)]);
    var end := HandleEndSession(g4, store, "s1");
    assert end.persisted == [TrackedResult("cat.png", tracked)];
    var cast := CastResults(end.persisted);
    assert |cast| == 1 && cast[0].imageUrl == "cat.png";
    assert cast[0].gazePoints == [GazePoint(10.0, 20.0, 6), GazePoint(15.0, 25.0, 7), GazePoint(90.0, 95.0, 8)];
  }
}
