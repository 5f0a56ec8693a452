# EyeTracking: a Dafny model of the live session core

EyeTracking runs remote eye-tracking tests. An admin creates a session and invites participants. The admin then calibrates the participant's tracker and streams stimulus images. The participant's page streams gaze samples back. When the admin ends the session, the samples collected per image are saved.

This project models the parts that decide what happens, as pure functions over immutable data:

- **The live-session coordinator** (`SessionsGateway`, `GatewayTraces`). It holds the registry from user id to socket, and one room per session. A room has the current image and the samples per image, with images in first-seen order. Each socket event is one transition that returns the new state and a log of the emits it sends. Each emit has a scope (room, room minus sender, or a user's private channel), an event name and a payload. `GatewayTraces` runs whole event traces against the coordinator plus the store.
- **The session store** (`SessionsService`, `Schema`). The store is a map from session id to session document, with the schema's enumerations and defaults. It covers `create`, `inviteUser`, `findForUser`, `findAll` and `finishSession`.
- **The client pages**:
  - `SessionPage`: the participant and admin status machine, the nine-target calibration counter, the gaze-emit guard and the admin's scan path.
  - `UserDashboard`: the invitation merge and the notification badge.
  - `AdminDashboard`: search, "is invited", invite candidates and buttons, the active-session statistic and the create guard.
  - `Routes`: the route table and `ProtectedRoute`.
- **Support modules**: `Wrappers` (Option/Result), `OrderedMap` (a JavaScript `Map` as an insertion-ordered association list), `Lists` (`filter` and the order-preserving sub-list relation), `Channels` (scopes, events, requests) and `Auth` (roles).

Behaviour of the code worth knowing:

- **A second `end_session` is not a no-op.** It finds no room and overwrites the saved results with an empty list (`SessionsGateway.RepeatedEndSessionPersistsNothing`).
- **`calibration_done` keeps no per-room calibration set.** Its broadcast carries the reporting socket's id, not a user id.
- **`send_image` to a room that was never joined changes no state.** It is still broadcast.
- **`notifyInvitation` always emits.** It sends to the user's private channel whether or not the user is connected. There is no registry lookup.

## Model

| member | source | states |
|---|---|---|
| OrderedMap.Put | backend/src/sessions/sessions.gateway.ts:41 | `Map.set`: the key maps to the new value; an existing key keeps its position and a new key is appended; other entries and key uniqueness are preserved |
| OrderedMap.Delete | backend/src/sessions/sessions.gateway.ts:52 | `Map.delete`: the key is gone, every other entry survives, nothing new appears, keys stay unique |
| OrderedMap.KeyOf | backend/src/sessions/sessions.gateway.ts:49-57 | the scan over `entries()` that breaks at the first match: the key found is that of the first entry, in insertion order, holding the socket; none exactly when no entry holds it |
| OrderedMap.PutFreshValueKeepsUniqueValues | backend/src/sessions/sessions.gateway.ts:41 | `set` with a value no entry holds leaves no value held twice |
| OrderedMap.DeleteKeepsUniqueValues | backend/src/sessions/sessions.gateway.ts:52 | `delete` leaves no value held twice |
| OrderedMap.GetPutOther | backend/src/sessions/sessions.gateway.ts:41 | setting one user's socket leaves every other user's lookup unchanged |
| Schema.CastResults | backend/src/sessions/schemas/session.schema.ts:24-28 | the stored results list the same images in the same order, each with the same samples in order, keeping only x, y and timestamp |
| Channels.NotifyInvitation | backend/src/sessions/sessions.gateway.ts:131-133 | `new_invitation` carrying the session goes to the channel `user_<id>` of the invited user |
| Channels.RoomAndUserChannelsDisjoint | backend/src/sessions/sessions.gateway.ts:42-61 | a session room's channel name never equals a user's private channel name |
| SessionsService.Create | backend/src/sessions/sessions.service.ts:15-22 | fails exactly for an empty title or admin (a validation error: both are required by the schema) or an id already in use; otherwise stores a session with that title and admin, no invitees, status `active`, no results; keeps the store well-formed |
| SessionsService.InviteUser | backend/src/sessions/sessions.service.ts:24-42 | NotFound exactly for an unknown id; otherwise the user is an invitee afterwards; an already-present user leaves the invitees unchanged; a new one is appended with status `invited` after the old list; nothing else in the document changes; invitee ids stay unique; one `new_invitation` goes to the user either way |
| SessionsService.InviteKeepsWellFormed | backend/src/sessions/sessions.service.ts:28-33 | inviting keeps every stored document well-formed |
| SessionsService.InviteTwiceIsInviteOnce | backend/src/sessions/sessions.service.ts:28-33 | a second identical invitation stores the same document, and the user appears exactly once among the invitees |
| SessionsService.Select | backend/src/sessions/sessions.service.ts:44-55 | a filtered `find` sorted by `createdAt` descending: exactly the stored sessions the filter keeps, newest first, no id twice |
| SessionsService.FindForUser | backend/src/sessions/sessions.service.ts:44-51 | exactly the sessions the user administers or is invited to, newest first, each once |
| SessionsService.FindAll | backend/src/sessions/sessions.service.ts:53-55 | every stored session, newest first, each once |
| SessionsService.FinishSession | backend/src/sessions/sessions.service.ts:57-63 | for a known id, status becomes `completed` and results are replaced wholesale by the cast results, and no other field changes; for an unknown id nothing changes and no document comes back |
| SessionsGateway.HandleConnection | backend/src/sessions/sessions.gateway.ts:33-47 | refused exactly when the token is missing, empty or rejected, and then nothing changes; otherwise the user's address becomes this socket and the rooms are untouched; at most one socket per user is kept |
| SessionsGateway.ConnectionKeepsOthers | backend/src/sessions/sessions.gateway.ts:41 | a connection changes no other user's address |
| SessionsGateway.HandleDisconnect | backend/src/sessions/sessions.gateway.ts:49-57 | the user registered at the socket is removed; an unknown socket changes nothing; rooms are untouched; the registry stays one-socket-per-user |
| SessionsGateway.ConnectFreshSocketKeepsOneUserPerSocket | backend/src/sessions/sessions.gateway.ts:33-47 | a connection on a socket no user is registered at keeps every socket to at most one user |
| SessionsGateway.DisconnectKeepsOneUserPerSocket | backend/src/sessions/sessions.gateway.ts:49-57 | a disconnect keeps every socket to at most one user |
| SessionsGateway.DisconnectFreesSocket | backend/src/sessions/sessions.gateway.ts:49-57 | when each socket belongs to at most one user, no user is left registered at the disconnected socket |
| SessionsGateway.DisconnectKeepsOtherSockets | backend/src/sessions/sessions.gateway.ts:49-57 | a user registered under a different socket keeps that registration |
| SessionsGateway.StaleDisconnectKeepsNewer | backend/src/sessions/sessions.gateway.ts:41-57 | after registering u with h1 and then h2, disconnecting h1 leaves u at h2 |
| SessionsGateway.HandleJoinSession | backend/src/sessions/sessions.gateway.ts:59-66 | the room exists afterwards; an existing room is untouched; a missing one is created empty |
| SessionsGateway.JoinIdempotent | backend/src/sessions/sessions.gateway.ts:62-64 | joining twice is joining once: a re-join never resets collected data |
| SessionsGateway.HandleStartCalibration | backend/src/sessions/sessions.gateway.ts:68-72 | no state change; one `init_calibration` to the whole room |
| SessionsGateway.HandleCalibrationDone | backend/src/sessions/sessions.gateway.ts:74-78 | no calibration record is kept; the whole room gets `user_calibrated` carrying the socket id |
| SessionsGateway.HandleSendImage | backend/src/sessions/sessions.gateway.ts:80-93 | a missing room is untouched; otherwise the image becomes current; a re-sent image keeps its samples, a new one gets an empty bucket at the end of the image order; no other bucket and no other room changes; `new_image` goes to the whole room |
| SessionsGateway.HandleGazeData | backend/src/sessions/sessions.gateway.ts:95-107 | with a room and a current image, exactly one point is appended to that image's bucket and nothing else changes; otherwise nothing changes; `receive_gaze` goes to the room except the sender |
| SessionsGateway.Snapshot | backend/src/sessions/sessions.gateway.ts:114-119 | one record per bucket, in first-seen image order, each with that bucket's points |
| SessionsGateway.HandleEndSession | backend/src/sessions/sessions.gateway.ts:109-129 | the room's snapshot (or nothing, without a room) is what `finishSession` receives; `session_ended` carries its result to the room; the room is absent afterwards |
| SessionsGateway.RepeatedEndSessionPersistsNothing | backend/src/sessions/sessions.gateway.ts:112-122 | a second `end_session` persists an empty list, leaving the stored session completed with no results |
| GatewayTraces.Apply | backend/src/sessions/sessions.gateway.ts:33-129 | each event keeps registry, rooms and store well-formed; only `end_session` writes the store; gaze is scoped to the room minus the sender and every other broadcast to the request's room; connects and disconnects emit nothing |
| GatewayTraces.RunKeepsGood | backend/src/sessions/sessions.gateway.ts:33-129 | every trace of events keeps registry, rooms and store well-formed |
| GatewayTraces.StoreChangesOnlyAtEndSession | backend/src/sessions/sessions.gateway.ts:109-129 | a trace without `end_session` leaves the store as it was |
| GatewayTraces.RunGazeTrace | backend/src/sessions/sessions.gateway.ts:95-107 | a trace of gaze events changes only the coordinator, one sample at a time |
| GatewayTraces.GazeStepAppends | backend/src/sessions/sessions.gateway.ts:97-103 | with a current image, one sample is appended to its bucket; the image order and the current image stay |
| GatewayTraces.GazeFoldAppends | backend/src/sessions/sessions.gateway.ts:97-103 | a stream of samples lands at the end of the current image's bucket in arrival order |
| GatewayTraces.GazeFoldKeepsOtherBuckets | backend/src/sessions/sessions.gateway.ts:97-103 | no sample reaches the bucket of an image that is not current |
| GatewayTraces.SamplesRecordedInOrder | backend/src/sessions/sessions.gateway.ts:95-107 | running gaze events appends exactly those samples, in order, to the current image and to no other |
| GatewayTraces.SwitchedImageBucketFrozen | backend/src/sessions/sessions.gateway.ts:84-103 | after `send_image` switches the stimulus, the old image's bucket receives nothing more |
| GatewayTraces.SampleBeforeImageDropped | backend/src/sessions/sessions.gateway.ts:59-103 | a sample in a freshly joined room, before any image, is dropped |
| GatewayTraces.Walkthrough | backend/src/sessions/sessions.gateway.ts:33-129 | create "Test A", invite, connect, join, calibrate, show `cat.png`, three samples, end: the invitee is notified and the session is completed with exactly those three points, in order, under `cat.png`; the room is gone |
| GatewayTraces.WalkthroughInvite | backend/src/sessions/sessions.service.ts:15-39 | in the walkthrough the fresh session gets the one invitee, and the invitation goes to that user's channel |
| GatewayTraces.WalkthroughImage | backend/src/sessions/sessions.gateway.ts:59-93 | in the walkthrough, joining twice and sending `cat.png` leaves a room showing `cat.png` with one empty bucket |
| GatewayTraces.WalkthroughSamples | backend/src/sessions/sessions.gateway.ts:95-103 | in the walkthrough the three samples form the only bucket |
| GatewayTraces.WalkthroughEnd | backend/src/sessions/sessions.gateway.ts:109-129 | in the walkthrough, ending stores the three points under `cat.png`, announces the completed session and removes the room |
| GatewayTraces.WalkthroughTracking | backend/src/sessions/sessions.gateway.ts:95-129 | from a room showing `cat.png` with an empty bucket, three samples and `end_session` store exactly those samples |
| Lists.Filter | frontend/src/pages/AdminDashboard.tsx:92-93 | `filter`: an element is kept exactly when it occurs in the input and passes the test; all are kept exactly when all pass |
| Lists.FilterCounts | frontend/src/pages/AdminDashboard.tsx:92-93 | each passing value is kept as often as it occurs in the input, and a failing one never |
| Lists.FilterIsSubsequence | frontend/src/pages/AdminDashboard.tsx:92-93 | what `filter` keeps stays in its original order |
| UserDashboard.MergeInvitation | frontend/src/pages/UserDashboard.tsx:34 | the invited session is first; no other entry has its id; every other earlier entry survives; the list grows by at most one, and by one exactly when the session was not listed |
| UserDashboard.MergeKeepsOrder | frontend/src/pages/UserDashboard.tsx:34 | the entries after the invited one keep their relative order |
| UserDashboard.MergeKeepsDistinctIds | frontend/src/pages/UserDashboard.tsx:34 | a list without duplicate ids has none after the merge |
| UserDashboard.MergeTwiceIsMergeOnce | frontend/src/pages/UserDashboard.tsx:34 | merging the same invitation again changes nothing |
| UserDashboard.OnNewInvitation | frontend/src/pages/UserDashboard.tsx:33-37 | the badge goes up by exactly one per event; the invited session heads the list and is listed once |
| UserDashboard.ReinvitationCountsTwiceListsOnce | frontend/src/pages/UserDashboard.tsx:33-37 | a re-invitation counts again on the badge but leaves the list as one invitation did |
| SessionPage.OnConnect | frontend/src/pages/SessionPage.tsx:63-74 | on connection the page sends `join_session` for its session and changes nothing |
| SessionPage.OnInitCalibration | frontend/src/pages/SessionPage.tsx:76-79 | a participant becomes ready; an admin's page is untouched |
| SessionPage.OnUserCalibrated | frontend/src/pages/SessionPage.tsx:81-84 | only the admin's page records the calibration |
| SessionPage.OnNewImage | frontend/src/pages/SessionPage.tsx:86-93 | only a participant shows the image and starts tracking |
| SessionPage.OnReceiveGaze | frontend/src/pages/SessionPage.tsx:95-137 | only the admin's page, with the scan-path canvas mounted (never in the summary view, lines 450 and 687), extends the scan path by the append rule; nothing else changes |
| SessionPage.OnSessionEnded | frontend/src/pages/SessionPage.tsx:139-146 | any role moves to the summary, keeping the payload |
| SessionPage.OnEvent | frontend/src/pages/SessionPage.tsx:63-164 | `session_ended` always leads to the summary with its payload; no other event touches the summary, the role, the session or the counter |
| SessionPage.AdminStatusOnlyEnds | frontend/src/pages/SessionPage.tsx:76-146 | an admin's status moves only on `session_ended`, and server events never change its image |
| SessionPage.UserNeverTracksScanPath | frontend/src/pages/SessionPage.tsx:81-137 | server events never touch a participant's scan path or calibration flag |
| SessionPage.StartCalibration | frontend/src/pages/SessionPage.tsx:169-195 | the page is calibrating with no error and a fresh overlay in which every button shows; the click counter is kept |
| SessionPage.CalibrationFailed | frontend/src/pages/SessionPage.tsx:182-194 | each failure path (script load, camera, tracker start at lines 289-294) records its failure and returns to `ready` |
| SessionPage.PointClick | frontend/src/pages/SessionPage.tsx:297-315 | a click counts only on a button that is showing (lines 763-790); it hides that button and raises the counter by one; reaching nine, the number of targets, completes calibration and sends `calibration_done`; otherwise nothing else happens |
| SessionPage.ClicksIgnoredWithoutButtons | frontend/src/pages/SessionPage.tsx:763-790 | outside calibration, or once every button has been clicked, clicks change nothing and send nothing |
| SessionPage.ClicksSendDoneOnce | frontend/src/pages/SessionPage.tsx:297-315 | n clicks on distinct showing buttons from counter c send exactly one `calibration_done` and complete when c < 9 <= c + n; otherwise they send none, stay calibrating, raise the counter by n and hide those buttons |
| SessionPage.CalibrationFromScratch | frontend/src/pages/SessionPage.tsx:18-22 | on a fresh overlay from a zero counter, clicks on distinct buttons send one `calibration_done` once all nine are clicked, and none before |
| SessionPage.RecalibrationNeverCompletes | frontend/src/pages/SessionPage.tsx:297-306 | once the counter has reached nine, clicks on distinct buttons of a new calibration send no `calibration_done` and leave it calibrating |
| SessionPage.SecondCalibrationStuck | frontend/src/pages/SessionPage.tsx:297-306 | a participant who calibrated once and calibrates again clicks all nine buttons without completing, and then no button is left to click |
| SessionPage.StartCalibrationResetting | frontend/src/pages/SessionPage.tsx:169-173 | the start as evidently intended: calibrating, no error, and the counter back at zero |
| SessionPage.EveryCalibrationCompletes | frontend/src/pages/SessionPage.tsx:297-306 | with the resetting start, clicking the nine buttons in any order completes every calibration with exactly one `calibration_done` |
| SessionPage.ResettingAgreesOnFreshPage | frontend/src/pages/SessionPage.tsx:35-38 | on a page whose counter is still zero, the resetting start and the code's start agree |
| SessionPage.GazeEmit | frontend/src/pages/SessionPage.tsx:219-230 | a prediction is sent exactly while tracking or calibrating, as a `gaze_data` for the page's session |
| SessionPage.AdminStart | frontend/src/pages/SessionPage.tsx:415-418 | sends `start_calibration` and waits |
| SessionPage.ResetScanPath | frontend/src/pages/SessionPage.tsx:404-410 | the scan path is empty and nothing else changes |
| SessionPage.SendImageToUser | frontend/src/pages/SessionPage.tsx:435-440 | sends `send_image`; the admin's image becomes the sent one and the scan path starts empty |
| SessionPage.ConfirmEndSession | frontend/src/pages/SessionPage.tsx:442-446 | `end_session` is sent exactly when the admin confirms |
| SessionPage.FirstNearIn | frontend/src/pages/SessionPage.tsx:115-118 | `find`: the first target within radius 8, with none before it; none exactly when no target is that close |
| SessionPage.FirstNear | frontend/src/pages/SessionPage.tsx:114-118 | the `find` over the targets as points: a target within radius 8 of the gaze, drawn from the list, and none exactly when no target is that close |
| SessionPage.AtMostOneNear | frontend/src/pages/SessionPage.tsx:18-22 | the targets are far enough apart that a gaze is within radius 8 of at most one of them |
| SessionPage.AddScanPoint | frontend/src/pages/SessionPage.tsx:120-134 | the near target is appended unless the path already ends with it; with no near target nothing is added; a path without consecutive repeats keeps none |
| SessionPage.ScanPathHasNoRepeats | frontend/src/pages/SessionPage.tsx:110-134 | for any stream of samples, the scan path holds only targets, never the same one twice in a row, and is no longer than the stream |
| SessionPage.ParticipantFlow | frontend/src/pages/SessionPage.tsx:76-315 | init, start, the nine buttons in any order, new image: ready, calibrating, completed with one `calibration_done`, then tracking the image; gaze is sent only while calibrating and tracking |
| AdminDashboard.LowerChar | frontend/src/pages/AdminDashboard.tsx:92 | an ASCII capital is lowered, every other character is kept, and no capital remains |
| AdminDashboard.Lower | frontend/src/pages/AdminDashboard.tsx:92 | `toLowerCase` on ASCII: the same length, each character lowered |
| AdminDashboard.LowerIdempotent | frontend/src/pages/AdminDashboard.tsx:92 | lowering twice is lowering once |
| AdminDashboard.IncludesIffOccurs | frontend/src/pages/AdminDashboard.tsx:92 | `includes` holds exactly when the query occurs at some position of the text |
| AdminDashboard.FilteredSessions | frontend/src/pages/AdminDashboard.tsx:92 | exactly the sessions whose lower-cased title contains the lower-cased query |
| AdminDashboard.FilteredUsers | frontend/src/pages/AdminDashboard.tsx:93 | exactly the users whose lower-cased e-mail contains the lower-cased query |
| AdminDashboard.FiltersKeepOrder | frontend/src/pages/AdminDashboard.tsx:92-93 | both searches keep the original order |
| AdminDashboard.EmptyQueryKeepsAll | frontend/src/pages/AdminDashboard.tsx:92-93 | an empty search shows every session and every user |
| AdminDashboard.RefId | frontend/src/pages/AdminDashboard.tsx:317 | `inv.user?._id \|\| inv.user`: a raw id compares as itself, a populated user as its non-empty `_id`, a missing user as nothing |
| AdminDashboard.AsListed | backend/src/sessions/sessions.service.ts:44-50 | a stored session as the client receives it: same id, title, status and invitees in order, with raw or populated invitee references |
| AdminDashboard.IsInvitedMatchesStore | frontend/src/pages/AdminDashboard.tsx:317 | the client's `isInvited` agrees with the stored invitee list: always for raw ids, and for populated ones with a non-empty id |
| AdminDashboard.EmptyPopulatedIdMatchesNothing | frontend/src/pages/AdminDashboard.tsx:317 | a populated user whose `_id` is empty matches no candidate |
| AdminDashboard.InviteCandidates | frontend/src/pages/AdminDashboard.tsx:316 | at most four users, none of them the signed-in admin, all from the user list |
| AdminDashboard.CandidatesAreFirstOthers | frontend/src/pages/AdminDashboard.tsx:316 | the candidates are all other users, in list order, when there are at most four, and exactly the first four others when there are more |
| AdminDashboard.InviteKeyInjective | frontend/src/pages/AdminDashboard.tsx:70 | for session ids of one length, distinct session/user pairs have distinct in-flight markers |
| AdminDashboard.BeginInvite | frontend/src/pages/AdminDashboard.tsx:69-70 | the pair is marked in flight and nothing else changes |
| AdminDashboard.SettleInvite | frontend/src/pages/AdminDashboard.tsx:69-79 | the in-flight marker is cleared either way; the lists are refreshed only when the request succeeded, and kept otherwise |
| AdminDashboard.InviteButtonLifecycle | frontend/src/pages/AdminDashboard.tsx:69-78 | an in-flight invitation's button is disabled; after it settles, successfully or not, a button is disabled exactly when the user is invited in the lists then shown |
| AdminDashboard.SingleInviteMarker | frontend/src/pages/AdminDashboard.tsx:69-78 | with one marker for the whole page, starting a second invitation re-enables the first pair's button while its request is in flight, and the first settling re-enables the second's |
| AdminDashboard.ActiveCount | frontend/src/pages/AdminDashboard.tsx:185 | at most the number of sessions; equal to it exactly when all are active; zero exactly when none is |
| AdminDashboard.ActiveCountAdds | frontend/src/pages/AdminDashboard.tsx:185 | the statistic adds up over any split of the list |
| AdminDashboard.CreateRequest | frontend/src/pages/AdminDashboard.tsx:53-58 | nothing is sent exactly when the title is empty; otherwise the title itself |
| AdminDashboard.CreateRequestNeverInvalid | frontend/src/pages/AdminDashboard.tsx:55 | every title the form sends passes the store's title requirement |
| Routes.Guard | frontend/src/components/ProtectedRoute.tsx:10-30 | loading shows the spinner whatever the user; once loaded, no user redirects to `/login`, and so does a user whose role the route's list does not admit; children render exactly when a user is present and admitted |
| Routes.UnrestrictedAdmitsAnyUser | frontend/src/components/ProtectedRoute.tsx:25-29 | without a role list any signed-in user gets the children |
| Routes.FirstMatch | frontend/src/App.tsx:15-47 | the first matching route, or none exactly when no route matches |
| Routes.TableRoutesDisjoint | frontend/src/App.tsx:15-47 | no path matches two routes of the table |
| Routes.Resolve | frontend/src/App.tsx:15-47 | some element exactly when some route matches, and then that route's element |
| Routes.Outcome | frontend/src/App.tsx:15-47 | the screen is blank exactly when no route matches |
| Routes.LoginAndRegisterUnguarded | frontend/src/App.tsx:16-17 | `/login` and `/register` show their forms whatever the authentication state |
| Routes.SessionAdmitsBothRoles | frontend/src/App.tsx:19-26 | `/session/:id` shows the session page to a signed-in user of either role |
| Routes.DashboardOnlyForUsers | frontend/src/App.tsx:28-35 | `/dashboard` shows the participant dashboard exactly to participants and sends admins to `/login` |
| Routes.AdminPageOnlyForAdmins | frontend/src/App.tsx:37-44 | `/admin` shows the admin dashboard exactly to admins |
| Routes.RootRedirectsToLogin | frontend/src/App.tsx:46 | `/` sends everyone to `/login` |
| Routes.AdminNeverSeesUserDashboard | frontend/src/App.tsx:28-35 | on no path is an admin shown the participant dashboard |
| Routes.AnonymousSeesOnlyForms | frontend/src/components/ProtectedRoute.tsx:21-23 | without a signed-in user, only the login and register forms are ever shown |

## Findings

| source | as written | input that shows it | evidently intended | confidence | as-written member | corrected member |
|---|---|---|---|---|---|---|
| frontend/src/pages/SessionPage.tsx:297-306 | the click counter is a ref that nothing resets, and completion fires only when it equals 9 | a participant completes calibration (counter 9). A new `init_calibration` arrives, they start again and click all nine buttons: the counter goes 10 to 18, no `calibration_done` is sent, every button is hidden, and the page stays calibrating with nothing left to click | starting a calibration resets the counter, so every calibration completes after nine clicks | medium, not executed | SessionPage.SecondCalibrationStuck | SessionPage.EveryCalibrationCompletes |

The same defect also hits a participant whose calibration was restarted by a new `init_calibration` after some clicks. The restarted calibration completes early, after fewer than nine clicks. `SessionPage.RecalibrationNeverCompletes` states the general as-written behaviour. `SessionPage.StartCalibrationResetting` is the corrected start, and `SessionPage.ParticipantFlow` uses it.

## Left out

- JWT verification and token extraction (sessions.gateway.ts:35-38) are not modelled. The credential check is a parameter `verify: Token -> Option<UserId>`. A token whose payload has no `sub` is not distinguished from a valid one.
- bcrypt hashing and JWT signing in auth.service.ts wrap libraries that are not part of this model.
- Mongoose query and populate mechanics are not modelled. The store is a map; `populate` is the identity, except for invitee references on the client (`AdminDashboard.AsListed`). Fresh ObjectIds are a parameter.
- Ties in `createdAt` are ordered arbitrarily, as MongoDB leaves them unspecified.
- A failing `finishSession` write is not modelled: no exception path, so the room is always deleted after the write.
- NestJS modules and dependency injection, the HTTP controller, and `maxHttpBufferSize` are left out.
- socket.io delivery and room membership (`client.join`) are left out. Emits are a log with a scope, not delivered messages.
- useSocket.ts and sessionApi.ts are network clients. Requests are logged; responses are inputs.
- simpleheat.d.ts only declares types.
- The login and register forms are left out.
- Canvas, heatmap and WebGazer code, DOM styling, the summary page's counts and all rendering are left out. Two exceptions: the scan-path canvas being mounted (`SessionPage.CanvasMounted`), and which calibration buttons show (`SessionPage.ButtonShown`).
- The tracker loading flag is left out. The buttons are absent while the tracker loads; the model treats the tracker as loaded once calibration starts.
- The `alert` on a new invitation (UserDashboard.tsx:36) and the `console.error`/`console.log` logging are left out: they change no state.
- Viewport-to-percent conversions are floating point (SessionPage.tsx:102-103, 220-221). Samples are taken in percent, as reals. The radius test is squared distance below 64 over reals, standing in for `Math.sqrt(...) < 8`.
- The gateway's sample timestamp (`new Date()`, sessions.gateway.ts:101) comes in as a clock parameter `now`.
- The scan-path `timestamp: Date.now()` (SessionPage.tsx:127) is not kept: the scan path holds targets only, and its one reader, `redrawScanPath`, uses x and y alone.
- Concurrency between connections is left out. Events are handled one at a time, in trace order.
- The gateway keeps no per-room calibration set and checks no admin role, so neither is modelled.
- `toLowerCase` is modelled on ASCII letters only; other Unicode case mappings are left out.
- URL parsing is left out: paths are given as segment lists. React Router's case-insensitive matching and trailing slashes are not modelled.
- A page whose socket is not yet available sends nothing in the code. The model assumes the socket exists once the page is open.
