/**
 * The live session page, for both roles: the participant's status machine
 * (waiting, ready, calibrating, completed, tracking, summary), the nine-point
 * calibration counter, the gaze-emit guard, and on the admin side the
 * calibration flag and the scan path of calibration points the participant's
 * gaze visits. Each handler returns the new page state and the requests the
 * page emits to the coordinator.
 */
module SessionPage {
  import opened Wrappers
  import opened Schema
  import opened Auth
  import opened Channels

  datatype Status = Waiting | Ready | Calibrating | Completed | Tracking | Summary

  /** Why `startCalibration` fell back: the tracker script, the camera, or the tracker's start. */
  datatype Failure = ScriptLoadFailed | CameraUnavailable | TrackerStartFailed

  /** A calibration target, in percent of the viewport. */
  datatype CalibrationPoint = CalibrationPoint(id: nat, x: real, y: real)

  /** The nine targets, row by row, at 10, 50 and 90 percent on each axis. */
  const CalibrationPoints: seq<CalibrationPoint> := [
    CalibrationPoint(1, 10.0, 10.0), CalibrationPoint(2, 50.0, 10.0), CalibrationPoint(3, 90.0, 10.0),
    CalibrationPoint(4, 10.0, 50.0), CalibrationPoint(5, 50.0, 50.0), CalibrationPoint(6, 90.0, 50.0),
    CalibrationPoint(7, 10.0, 90.0), CalibrationPoint(8, 50.0, 90.0), CalibrationPoint(9, 90.0, 90.0)
  ]

  /**
   * The page. `role` is the signed-in user's role (absent while no user is
   * known); `currentImage` is `None` until an image is shown; `summary` holds
   * the `session_ended` payload once it has arrived. `clicks` is the
   * calibration counter and `hidden` the calibration buttons already clicked
   * in the current calibration overlay.
   */
  datatype Page = Page(
    role: Option<Role>,
    session: SessionId,
    status: Status,
    error: Option<Failure>,
    clicks: nat,
    hidden: set<nat>,
    currentImage: Option<ImageUrl>,
    userCalibrated: bool,
    scanPath: seq<CalibrationPoint>,
    summary: Option<Option<Session>>)

  function Open(role: Option<Role>, sid: SessionId): Page {
    Page(role, sid, Waiting, None, 0, {}, None, false, [], None)
  }

  /** A handler's outcome: the next page and what it sends to the coordinator. */
  datatype Reaction = Reaction(page: Page, sent: seq<Request>)

  predicate IsUser(p: Page) { p.role == Some(User) }
  predicate IsAdmin(p: Page) { p.role == Some(Admin) }

  // ---------------------------------------------------------------------------
  // Events from the coordinator
  // ---------------------------------------------------------------------------

  /** On (re)connection the page joins its session room. */
  function OnConnect(p: Page): (r: Reaction)
    ensures r.page == p && r.sent == [JoinSession(p.session)]
  {
    Reaction(p, [JoinSession(p.session)])
  }

  /** `init_calibration`: a participant becomes ready; an admin's page is untouched. */
  function OnInitCalibration(p: Page): (r: Page)
    ensures IsUser(p) ==> r == p.(status := Ready)
    ensures !IsUser(p) ==> r == p
  {
    if IsUser(p) then p.(status := Ready) else p
  }

  /** `user_calibrated`: only the admin's page records that calibration is done. */
  function OnUserCalibrated(p: Page): (r: Page)
    ensures IsAdmin(p) ==> r == p.(userCalibrated := true)
    ensures !IsAdmin(p) ==> r == p
  {
    if IsAdmin(p) then p.(userCalibrated := true) else p
  }

  /** `new_image`: a participant shows the image and starts tracking; an admin ignores it. */
  function OnNewImage(p: Page, url: ImageUrl): (r: Page)
    ensures IsUser(p) ==> r == p.(currentImage := Some(url), status := Tracking)
    ensures !IsUser(p) ==> r == p
  {
    if IsUser(p) then p.(currentImage := Some(url), status := Tracking) else p
  }

  /**
   * The scan-path canvas exists only in the main view (the summary view
   * replaces it), and there only while the admin's stage shows an image, or
   * calibration has not been confirmed and the page is waiting.
   */
  predicate CanvasMounted(p: Page) {
    && p.status != Summary
    && ((p.currentImage.Some? && p.currentImage.value != "") || (!p.userCalibrated && p.status == Waiting))
  }

  /** `receive_gaze`: on the admin's page, with the canvas mounted, the sample may extend the scan path. */
  function OnReceiveGaze(p: Page, x: real, y: real): (r: Page)
    ensures r == p.(scanPath := r.scanPath)
    ensures IsAdmin(p) && CanvasMounted(p) ==> r.scanPath == AddScanPoint(p.scanPath, x, y)
    ensures !(IsAdmin(p) && CanvasMounted(p)) ==> r == p
  {
    if IsAdmin(p) && CanvasMounted(p) then p.(scanPath := AddScanPoint(p.scanPath, x, y)) else p
  }

  /** `session_ended`: every role moves to the summary, keeping the payload. */
  function OnSessionEnded(p: Page, payload: Option<Session>): (r: Page)
    ensures r.status == Summary && r.summary == Some(payload)
    ensures r == p.(status := Summary, summary := Some(payload))
  {
    p.(status := Summary, summary := Some(payload))
  }

  /** Dispatches a coordinator event to its handler; `new_invitation` is not for this page. */
  function OnEvent(p: Page, e: OutEvent): (r: Page)
    ensures e.SessionEnded? ==> r.status == Summary && r.summary == Some(e.session)
    ensures !e.SessionEnded? ==> r.summary == p.summary
    ensures r.role == p.role && r.session == p.session && r.clicks == p.clicks && r.error == p.error
  {
    match e
    case InitCalibration => OnInitCalibration(p)
    case UserCalibrated(_) => OnUserCalibrated(p)
    case NewImage(url) => OnNewImage(p, url)
    case ReceiveGaze(x, y, _) => OnReceiveGaze(p, x, y)
    case SessionEnded(payload) => OnSessionEnded(p, payload)
    case NewInvitation(_) => p
  }

  /** The admin's status moves only on `session_ended`: the other events leave it alone. */
  lemma AdminStatusOnlyEnds(p: Page, e: OutEvent)
    requires IsAdmin(p)
    ensures !e.SessionEnded? ==> OnEvent(p, e).status == p.status
    ensures OnEvent(p, e).currentImage == p.currentImage
  {
  }

  /** A participant's page never touches the admin-only state. */
  lemma UserNeverTracksScanPath(p: Page, e: OutEvent)
    requires IsUser(p)
    ensures OnEvent(p, e).scanPath == p.scanPath
    ensures OnEvent(p, e).userCalibrated == p.userCalibrated
  {
  }

  // ---------------------------------------------------------------------------
  // The participant's actions
  // ---------------------------------------------------------------------------

  /**
   * `startCalibration`: clears the error and enters calibration, which mounts
   * a fresh overlay with every target's button showing. The click counter is
   * kept.
   */
  function StartCalibration(p: Page): (r: Page)
    ensures r.status == Calibrating && r.error == None && r.hidden == {}
    ensures r.clicks == p.clicks
    ensures r == p.(status := Calibrating, error := None, hidden := {})
  {
    p.(status := Calibrating, error := None, hidden := {})
  }

  /** Every failure path of `startCalibration` records the failure and returns to `ready`. */
  function CalibrationFailed(p: Page, f: Failure): (r: Page)
    ensures r.status == Ready && r.error == Some(f)
    ensures r == p.(status := Ready, error := Some(f))
  {
    p.(status := Ready, error := Some(f))
  }

  /** The number of calibration targets; the counter's goal. */
  function TargetCount(): nat { |CalibrationPoints| }

  /** The ids of the targets' buttons, one per calibration target. */
  const TargetIds: seq<nat> := [1, 2, 3, 4, 5, 6, 7, 8, 9]

  /** The nine buttons are distinct targets. */
  lemma TargetIdsDistinct()
    ensures DistinctTargets(TargetIds)
  {
  }

  /** The button of target `id` is on screen: the overlay is up and the button not yet clicked. */
  predicate ButtonShown(p: Page, id: nat) {
    p.status == Calibrating && id in TargetIds && id !in p.hidden
  }

  /**
   * `handlePointClick`, reachable only through a button on screen: the
   * button hides, the counter goes up by one, and when the counter equals
   * the number of targets the page completes calibration and sends
   * `calibration_done`. The counter is not reset by a later
   * `startCalibration`.
   */
  function PointClick(p: Page, id: nat): (r: Reaction)
    ensures !ButtonShown(p, id) ==> r == Reaction(p, [])
    ensures ButtonShown(p, id) ==>
              && r.page.clicks == p.clicks + 1
              && r.page.hidden == p.hidden + {id}
              && !ButtonShown(r.page, id)
              && r.page == p.(clicks := r.page.clicks, hidden := r.page.hidden, status := r.page.status)
    ensures ButtonShown(p, id) && p.clicks + 1 == TargetCount() ==>
              r.page.status == Status.Completed && r.sent == [CalibrationDone(p.session)]
    ensures ButtonShown(p, id) && p.clicks + 1 != TargetCount() ==>
              r.page.status == Calibrating && r.sent == []
  {
    if !ButtonShown(p, id) then Reaction(p, [])
    else
      var q := p.(clicks := p.clicks + 1, hidden := p.hidden + {id});
      if q.clicks == TargetCount() then Reaction(q.(status := Status.Completed), [CalibrationDone(p.session)])
      else Reaction(q, [])
  }

  /** Clicks on the buttons `ids`, in order, collecting what they send. */
  function Clicks(p: Page, ids: seq<nat>): (r: Reaction)
    ensures r.page == p.(clicks := r.page.clicks, hidden := r.page.hidden, status := r.page.status)
    ensures p.clicks <= r.page.clicks <= p.clicks + |ids|
    ensures forall i :: 0 <= i < |r.sent| ==> r.sent[i] == CalibrationDone(p.session)
    decreases |ids|
  {
    if ids == [] then Reaction(p, [])
    else
      var first := PointClick(p, ids[0]);
      var rest := Clicks(first.page, ids[1..]);
      Reaction(rest.page, first.sent + rest.sent)
  }

  /** Distinct targets' buttons. */
  predicate DistinctTargets(ids: seq<nat>) {
    && (forall i :: 0 <= i < |ids| ==> ids[i] in TargetIds)
    && (forall i, j :: 0 <= i < j < |ids| ==> ids[i] != ids[j])
  }

  /** Clicks on distinct buttons, none of them already clicked on `p`. */
  predicate FreshClicks(p: Page, ids: seq<nat>) {
    DistinctTargets(ids) && forall i :: 0 <= i < |ids| ==> ids[i] !in p.hidden
  }

  /** With no button on screen (outside calibration, or all clicked), clicks change nothing. */
  lemma {:induction false} ClicksIgnoredWithoutButtons(p: Page, ids: seq<nat>)
    requires p.status != Calibrating || forall k :: 0 <= k < |TargetIds| ==> TargetIds[k] in p.hidden
    ensures Clicks(p, ids) == Reaction(p, [])
    decreases |ids|
  {
    if ids != [] {
      assert !ButtonShown(p, ids[0]);
      ClicksIgnoredWithoutButtons(p, ids[1..]);
    }
  }

  /**
   * Clicking fresh buttons during calibration sends exactly one
   * `calibration_done`, and completes, if and only if the counter passes the
   * target count on the way; otherwise nothing is sent, the page stays
   * calibrating, the counter grows by one per click and every clicked button
   * is hidden.
   */
  lemma {:induction false} ClicksSendDoneOnce(p: Page, ids: seq<nat>)
    requires p.status == Calibrating && FreshClicks(p, ids)
    ensures var r := Clicks(p, ids);
            var reaches := p.clicks < TargetCount() <= p.clicks + |ids|;
            && r.page.session == p.session
            && (reaches ==> r.sent == [CalibrationDone(p.session)] && r.page.status == Status.Completed
                            && r.page.clicks == TargetCount())
            && (!reaches ==> r.sent == [] && r.page.status == Calibrating && r.page.clicks == p.clicks + |ids|
                             && p.hidden <= r.page.hidden
                             && (forall i :: 0 <= i < |ids| ==> ids[i] in r.page.hidden))
    decreases |ids|
  {
    if ids != [] {
      var id := ids[0];
      assert ButtonShown(p, id);
      var first := PointClick(p, id);
      var tail := ids[1..];
      var rest := Clicks(first.page, tail);
      assert Clicks(p, ids).sent == first.sent + rest.sent;
      if p.clicks + 1 == TargetCount() {
        ClicksIgnoredWithoutButtons(first.page, tail);
      } else {
        assert FreshClicks(first.page, tail) by {
          forall i | 0 <= i < |tail|
            ensures tail[i] !in first.page.hidden
          {
            assert tail[i] == ids[i + 1] && ids[i + 1] != ids[0];
          }
        }
        ClicksSendDoneOnce(first.page, tail);
        forall i | 0 <= i < |ids|
          ensures ids[i] in rest.page.hidden || p.clicks < TargetCount() <= p.clicks + |ids|
        {
          if i > 0 {
            assert ids[i] == tail[i - 1];
          }
        }
      }
    }
  }

  /**
   * From a fresh counter, clicking every target's button completes
   * calibration with exactly one `calibration_done`, and fewer clicks send
   * nothing.
   */
  lemma CalibrationFromScratch(p: Page, ids: seq<nat>)
    requires p.clicks == 0 && p.status == Calibrating && FreshClicks(p, ids)
    ensures |ids| >= TargetCount() ==>
              Clicks(p, ids).sent == [CalibrationDone(p.session)] && Clicks(p, ids).page.status == Status.Completed
    ensures |ids| < TargetCount() ==>
              Clicks(p, ids).sent == [] && Clicks(p, ids).page.status == Calibrating
  {
    ClicksSendDoneOnce(p, ids);
  }

  /**
   * As written, the counter survives a restart: once it has reached the
   * target count, a new calibration (after `init_calibration` and a start)
   * never reaches it again, whichever buttons are clicked: no
   * `calibration_done` is sent and the participant stays calibrating.
   */
  lemma RecalibrationNeverCompletes(p: Page, ids: seq<nat>)
    requires p.clicks >= TargetCount() && DistinctTargets(ids)
    ensures Clicks(StartCalibration(OnInitCalibration(p)), ids).sent == []
    ensures Clicks(StartCalibration(OnInitCalibration(p)), ids).page.status == Calibrating
  {
    var q := StartCalibration(OnInitCalibration(p));
    ClicksSendDoneOnce(q, ids);
  }

  /**
   * The concrete case: a participant who calibrated once clicks all nine
   * buttons again. Nothing is sent, the page stays calibrating, and no
   * button is left to click.
   */
  lemma SecondCalibrationStuck(sid: SessionId)
    ensures var first := Clicks(StartCalibration(OnInitCalibration(Open(Some(User), sid))), TargetIds);
            var second := Clicks(StartCalibration(OnInitCalibration(first.page)), TargetIds);
            && first.sent == [CalibrationDone(sid)]
            && second.sent == []
            && second.page.status == Calibrating
            && forall id :: !ButtonShown(second.page, id)
  {
    TargetIdsDistinct();
    var q := StartCalibration(OnInitCalibration(Open(Some(User), sid)));
    ClicksSendDoneOnce(q, TargetIds);
    var first := Clicks(q, TargetIds);
    var q2 := StartCalibration(OnInitCalibration(first.page));
    ClicksSendDoneOnce(q2, TargetIds);
    var second := Clicks(q2, TargetIds);
    forall id | id in TargetIds
      ensures id in second.page.hidden
    {
      var k :| 0 <= k < |TargetIds| && TargetIds[k] == id;
    }
  }

  /** `startCalibration` as evidently intended: it also clears the click counter. */
  function StartCalibrationResetting(p: Page): (r: Page)
    ensures r.status == Calibrating && r.error == None && r.clicks == 0 && r.hidden == {}
    ensures r == p.(status := Calibrating, error := None, clicks := 0, hidden := {})
  {
    p.(status := Calibrating, error := None, clicks := 0, hidden := {})
  }

  /**
   * With the reset, every calibration, first or repeated, completes after one
   * click on each target's button, with exactly one `calibration_done`.
   */
  lemma EveryCalibrationCompletes(p: Page, ids: seq<nat>)
    requires DistinctTargets(ids) && |ids| == TargetCount()
    ensures var r := Clicks(StartCalibrationResetting(p), ids);
            && r.sent == [CalibrationDone(p.session)]
            && r.page.status == Status.Completed
  {
    ClicksSendDoneOnce(StartCalibrationResetting(p), ids);
  }

  /** On a fresh page the two agree: the first calibration is unaffected by the defect. */
  lemma ResettingAgreesOnFreshPage(p: Page)
    requires p.clicks == 0
    ensures StartCalibrationResetting(p) == StartCalibration(p)
  {
  }

  /**
   * The gaze listener's guard: a prediction is sent to the coordinator only
   * while the participant is tracking or calibrating.
   */
  function GazeEmit(p: Page, x: real, y: real): (r: Option<Request>)
    ensures r.Some? <==> p.status == Tracking || p.status == Calibrating
    ensures r.Some? ==> r.value == GazeData(p.session, x, y)
  {
    if p.status == Tracking || p.status == Calibrating then Some(GazeData(p.session, x, y)) else None
  }

  // ---------------------------------------------------------------------------
  // The admin's actions
  // ---------------------------------------------------------------------------

  /** `handleAdminStart`: asks the coordinator to start calibration and waits. */
  function AdminStart(p: Page): (r: Reaction)
    ensures r.sent == [Request.StartCalibration(p.session)] && r.page == p.(status := Waiting)
  {
    Reaction(p.(status := Waiting), [Request.StartCalibration(p.session)])
  }

  /** `resetScanPath`: forgets the scan path. */
  function ResetScanPath(p: Page): (r: Page)
    ensures r.scanPath == [] && r == p.(scanPath := [])
  {
    p.(scanPath := [])
  }

  /** `sendImageToUser`: sends the image, shows it locally, and starts a fresh scan path. */
  function SendImageToUser(p: Page, url: ImageUrl): (r: Reaction)
    ensures r.sent == [SendImage(p.session, url)]
    ensures r.page.currentImage == Some(url) && r.page.scanPath == []
    ensures r.page == p.(currentImage := Some(url), scanPath := [])
  {
    Reaction(ResetScanPath(p.(currentImage := Some(url))), [SendImage(p.session, url)])
  }

  /** `handleEndSession`: sends `end_session` only when the admin confirms. */
  function ConfirmEndSession(p: Page, confirmed: bool): (r: Reaction)
    ensures r.page == p
    ensures confirmed <==> r.sent == [Request.EndSession(p.session)]
    ensures !confirmed <==> r.sent == []
  {
    if confirmed then Reaction(p, [Request.EndSession(p.session)]) else Reaction(p, [])
  }

  // ---------------------------------------------------------------------------
  // The scan path
  // ---------------------------------------------------------------------------

  /** The gaze at `(x, y)` is within 8 percent of the target (squared distance below 64). */
  predicate Near(c: CalibrationPoint, x: real, y: real) {
    (c.x - x) * (c.x - x) + (c.y - y) * (c.y - y) < 64.0
  }

  /** The first target in `ps`, in list order, near `(x, y)`. */
  function FirstNearIn(ps: seq<CalibrationPoint>, x: real, y: real): (r: Option<nat>)
    ensures r.None? <==> forall i :: 0 <= i < |ps| ==> !Near(ps[i], x, y)
    ensures r.Some? ==> r.value < |ps| && Near(ps[r.value], x, y)
    ensures r.Some? ==> forall i :: 0 <= i < r.value ==> !Near(ps[i], x, y)
  {
    if ps == [] then None
    else if Near(ps[0], x, y) then Some(0)
    else match FirstNearIn(ps[1..], x, y)
      case None => None
      case Some(k) => Some(k + 1)
  }

  /**
   * The target of `ps` the gaze is near, if any: the first match in list
   * order. The page searches the calibration targets.
   */
  function FirstNear(ps: seq<CalibrationPoint>, x: real, y: real): (r: Option<CalibrationPoint>)
    ensures r.None? <==> forall i :: 0 <= i < |ps| ==> !Near(ps[i], x, y)
    ensures r.Some? ==> r.value in ps && Near(r.value, x, y)
  {
    match FirstNearIn(ps, x, y)
    case None => None
    case Some(k) => Some(ps[k])
  }

  /** Within 8 on both axes. */
  lemma NearBounds(c: CalibrationPoint, x: real, y: real)
    requires Near(c, x, y)
    ensures -8.0 < c.x - x < 8.0 && -8.0 < c.y - y < 8.0
  {
    SquareNonNegative(c.x - x);
    SquareNonNegative(c.y - y);
    SquareBelow64(c.x - x, (c.y - y) * (c.y - y));
    SquareBelow64(c.y - y, (c.x - x) * (c.x - x));
  }

  lemma SquareBelow64(a: real, rest: real)
    requires rest >= 0.0 && a * a + rest < 64.0
    ensures -8.0 < a < 8.0
  {
  }

  /** The squares involved are non-negative. */
  lemma SquareNonNegative(a: real)
    ensures a * a >= 0.0
  {
    if a < 0.0 {
      assert a * a == (-a) * (-a);
    }
  }

  /**
   * The targets are 40 percent apart, so a gaze is near at most one of them:
   * the "first match" is the only match.
   */
  lemma AtMostOneNear(x: real, y: real, i: nat, j: nat)
    requires i < |CalibrationPoints| && j < |CalibrationPoints|
    requires Near(CalibrationPoints[i], x, y) && Near(CalibrationPoints[j], x, y)
    ensures i == j
  {
    var c, d := CalibrationPoints[i], CalibrationPoints[j];
    SquareNonNegative(c.x - x);
    SquareNonNegative(c.y - y);
    SquareNonNegative(d.x - x);
    SquareNonNegative(d.y - y);
    NearBounds(c, x, y);
    NearBounds(d, x, y);
    assert -16.0 < c.x - d.x < 16.0 && -16.0 < c.y - d.y < 16.0;
    assert c.x == d.x && c.y == d.y;
  }

  /** No two consecutive scan-path entries are the same target. */
  predicate NoRepeats(path: seq<CalibrationPoint>) {
    forall i :: 0 < i < |path| ==> path[i - 1].id != path[i].id
  }

  /**
   * The append rule: a sample near a target adds that target, unless the
   * path already ends with it; a sample near no target adds nothing.
   */
  function AddScanPoint(path: seq<CalibrationPoint>, x: real, y: real): (r: seq<CalibrationPoint>)
    ensures FirstNear(CalibrationPoints, x, y).None? ==> r == path
    ensures FirstNear(CalibrationPoints, x, y).Some? ==>
              var c := FirstNear(CalibrationPoints, x, y).value;
              if path != [] && path[|path| - 1].id == c.id then r == path else r == path + [c]
    ensures NoRepeats(path) ==> NoRepeats(r)
  {
    match FirstNear(CalibrationPoints, x, y)
    case None => path
    case Some(c) =>
      if path != [] && path[|path| - 1].id == c.id then path else path + [c]
  }

  /** The scan path built from any stream of samples, from empty. */
  function ScanPathOf(samples: seq<(real, real)>): seq<CalibrationPoint>
  {
    if samples == [] then []
    else AddScanPoint(ScanPathOf(samples[..|samples| - 1]), samples[|samples| - 1].0, samples[|samples| - 1].1)
  }

  /**
   * Whatever the samples, the scan path never repeats a target twice in a row
   * and holds only calibration targets.
   */
  lemma {:induction false} ScanPathHasNoRepeats(samples: seq<(real, real)>)
    ensures NoRepeats(ScanPathOf(samples))
    ensures forall i :: 0 <= i < |ScanPathOf(samples)| ==> ScanPathOf(samples)[i] in CalibrationPoints
    ensures |ScanPathOf(samples)| <= |samples|
  {
    if samples != [] {
      ScanPathHasNoRepeats(samples[..|samples| - 1]);
    }
  }

  // ---------------------------------------------------------------------------
  // The participant's flow
  // ---------------------------------------------------------------------------

  /**
   * The participant's documented flow: `init_calibration`, start, a click
   * on each of the nine buttons in any order, `new_image`. Gaze is sent while calibrating and while tracking,
   * but not while waiting, ready or calibrated-but-not-tracking. The start
   * is the resetting one, which on this fresh page is the code's own.
   */
  lemma ParticipantFlow(sid: SessionId, ids: seq<nat>, url: ImageUrl, x: real, y: real)
    requires DistinctTargets(ids) && |ids| == TargetCount()
    ensures var p0 := Open(Some(User), sid);
            var p1 := OnEvent(p0, InitCalibration);
            var p2 := StartCalibrationResetting(p1);
            var clicked := Clicks(p2, ids);
            var p3 := clicked.page;
            var p4 := OnEvent(p3, NewImage(url));
            && GazeEmit(p0, x, y).None?
            && p1.status == Ready && GazeEmit(p1, x, y).None?
            && GazeEmit(p2, x, y) == Some(GazeData(sid, x, y))
            && clicked.sent == [CalibrationDone(sid)]
            && p3.status == Status.Completed && GazeEmit(p3, x, y).None?
            && p4.status == Tracking && p4.currentImage == Some(url)
            && GazeEmit(p4, x, y) == Some(GazeData(sid, x, y))
  {
    var p0 := Open(Some(User), sid);
    var p1 := OnEvent(p0, InitCalibration);
    assert p1 == p0.(status := Ready);
    EveryCalibrationCompletes(p1, ids);
    var p2 := StartCalibrationResetting(p1);
    var p3 := Clicks(p2, ids).page;
    assert p3.role == Some(User) && p3.session == sid;
    assert OnEvent(p3, NewImage(url)) == p3.(currentImage := Some(url), status := Tracking);
  }
}
