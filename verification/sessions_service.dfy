/**
 * The session store: a map from session id to session document, with the
 * service's create / invite / query / finish operations.
 */
module SessionsService {
  import opened Wrappers
  import opened Schema
  import opened Channels

  type Store = map<SessionId, Session>

  datatype StoreError = NotFound | ValidationError | DuplicateKey

  /** Every document is stored under its own id, has its required fields and unique invitees. */
  predicate WellFormed(store: Store) {
    forall id :: id in store ==>
      store[id].id == id && HasRequiredFields(store[id]) && UniqueInvitees(store[id])
  }

  /**
   * `create(title, adminId)`: a new active session with no invitees and no
   * results. `id` is the fresh document id and `now` the creation time. Saving
   * fails validation when a required field is empty.
   */
  function Create(store: Store, id: SessionId, title: string, adminId: UserId, now: int)
    : (r: Result<(Store, Session), StoreError>)
    ensures r.Failure? <==> title == "" || adminId == "" || id in store
    ensures r.Failure? && (title == "" || adminId == "") ==> r.error == ValidationError
    ensures r.Success? ==>
      var (store', s) := r.value;
      && s.id == id && s.title == title && s.admin == adminId && s.createdAt == now
      && s.invitees == [] && s.status == DefaultSessionStatus && s.results == []
      && id !in store && store' == store[id := s]
    ensures r.Success? && WellFormed(store) ==> WellFormed(r.value.0)
  {
    if title == "" || adminId == "" then Failure(ValidationError)
    else if id in store then Failure(DuplicateKey)
    else
      var s := Session(id, title, adminId, [], DefaultSessionStatus, [], now);
      Success((store[id := s], s))
  }

  /** The new store, the session returned to the caller and the emits sent. */
  datatype Invitation = Invitation(store: Store, session: Session, emits: seq<Emit>)

  /**
   * `inviteUser(sessionId, userId)`: NotFound for an unknown session;
   * otherwise the user is appended with status `invited` unless already
   * present, and a `new_invitation` is sent to the user either way.
   */
  function InviteUser(store: Store, sid: SessionId, uid: UserId): (r: Result<Invitation, StoreError>)
    ensures r.Failure? <==> sid !in store
    ensures r.Failure? ==> r.error == NotFound
    ensures r.Success? ==>
      var before := store[sid];
      var s := r.value.session;
      && IsInvitee(s, uid)
      && s == before.(invitees := s.invitees)
      && |s.invitees| >= |before.invitees|
      && s.invitees[..|before.invitees|] == before.invitees
      && (IsInvitee(before, uid) ==> s.invitees == before.invitees)
      && (!IsInvitee(before, uid) ==>
            |s.invitees| == |before.invitees| + 1 && s.invitees[|before.invitees|] == Invitee(uid, DefaultInviteeStatus))
      && (UniqueInvitees(before) ==> UniqueInvitees(s))
      && r.value.store == store[sid := s]
      && r.value.emits == [NotifyInvitation(uid, s)]
  {
    if sid !in store then Failure(NotFound)
    else
      var before := store[sid];
      var s :=
        if IsInvitee(before, uid) then before
        else
          var s' := before.(invitees := before.invitees + [Invitee(uid, DefaultInviteeStatus)]);
          assert s'.invitees[|before.invitees|].user == uid;
          s';
      Success(Invitation(store[sid := s], s, [NotifyInvitation(uid, s)]))
  }

  /** Inviting keeps the store well-formed. */
  lemma InviteKeepsWellFormed(store: Store, sid: SessionId, uid: UserId)
    requires WellFormed(store)
    ensures InviteUser(store, sid, uid).Success? ==> WellFormed(InviteUser(store, sid, uid).value.store)
  {
  }

  /**
   * Inviting the same user twice stores the same document as inviting once,
   * and the user then appears exactly once among the invitees.
   */
  lemma InviteTwiceIsInviteOnce(store: Store, sid: SessionId, uid: UserId)
    requires WellFormed(store) && sid in store
    ensures var once := InviteUser(store, sid, uid).value;
            var twice := InviteUser(once.store, sid, uid).value;
            && twice.store == once.store
            && |set i | 0 <= i < |twice.session.invitees| && twice.session.invitees[i].user == uid| == 1
  {
    var once := InviteUser(store, sid, uid).value;
    var s := once.session;
    var k :| 0 <= k < |s.invitees| && s.invitees[k].user == uid;
    assert UniqueInvitees(s);
    assert (set i | 0 <= i < |s.invitees| && s.invitees[i].user == uid) == {k};
  }

  /** The user is the session's admin or one of its invitees. */
  predicate Member(s: Session, u: UserId) {
    s.admin == u || IsInvitee(s, u)
  }

  /** Sorted by `createdAt`, newest first. */
  predicate NewestFirst(ss: seq<Session>) {
    forall i, j :: 0 <= i < j < |ss| ==> ss[i].createdAt >= ss[j].createdAt
  }

  predicate DistinctIds(ss: seq<Session>) {
    forall i, j :: 0 <= i < j < |ss| ==> ss[i].id != ss[j].id
  }

  /** The first position whose session is not newer than `s`. */
  function InsertionPoint(ss: seq<Session>, s: Session): (p: nat)
    ensures p <= |ss|
    ensures forall i :: 0 <= i < p ==> ss[i].createdAt > s.createdAt
    ensures p < |ss| ==> ss[p].createdAt <= s.createdAt
  {
    if ss == [] || ss[0].createdAt <= s.createdAt then 0
    else 1 + InsertionPoint(ss[1..], s)
  }

  /** Inserts `s` into a list, after every session strictly newer than it. */
  function InsertNewestFirst(ss: seq<Session>, s: Session): (r: seq<Session>)
    ensures |r| == |ss| + 1
    ensures var p := InsertionPoint(ss, s); r[..p] == ss[..p] && r[p] == s && r[p + 1..] == ss[p..]
  {
    var p := InsertionPoint(ss, s);
    ss[..p] + [s] + ss[p..]
  }

  lemma InsertKeepsMembers(ss: seq<Session>, s: Session)
    ensures forall x :: x in InsertNewestFirst(ss, s) <==> x in ss || x == s
  {
    var p := InsertionPoint(ss, s);
    assert ss == ss[..p] + ss[p..];
    assert InsertNewestFirst(ss, s) == ss[..p] + [s] + ss[p..];
  }

  lemma InsertKeepsNewestFirst(ss: seq<Session>, s: Session)
    requires NewestFirst(ss)
    ensures NewestFirst(InsertNewestFirst(ss, s))
  {
    var p := InsertionPoint(ss, s);
    var r := InsertNewestFirst(ss, s);
    forall i, j | 0 <= i < j < |r|
      ensures r[i].createdAt >= r[j].createdAt
    {
      var a := if i < p then i else if i == p then -1 else i - 1;
      var b := if j < p then j else if j == p then -1 else j - 1;
      if i == p {
        assert r[j] == ss[b];
        assert ss[p].createdAt <= s.createdAt;
      } else if j == p {
        assert r[i] == ss[a];
      } else {
        assert r[i] == ss[a] && r[j] == ss[b];
      }
    }
  }

  lemma InsertKeepsDistinctIds(ss: seq<Session>, s: Session)
    requires DistinctIds(ss)
    requires forall x :: x in ss ==> x.id != s.id
    ensures DistinctIds(InsertNewestFirst(ss, s))
  {
    var p := InsertionPoint(ss, s);
    var r := InsertNewestFirst(ss, s);
    forall i, j | 0 <= i < j < |r|
      ensures r[i].id != r[j].id
    {
      var a := if i < p then i else if i == p then -1 else i - 1;
      var b := if j < p then j else if j == p then -1 else j - 1;
      if i == p {
        assert r[j] == ss[b];
        assert ss[b] in ss;
      } else if j == p {
        assert r[i] == ss[a];
        assert ss[a] in ss;
      } else {
        assert r[i] == ss[a] && r[j] == ss[b];
      }
    }
  }

  /**
   * A `find` with a filter and `sort({createdAt: -1})`: exactly the stored
   * sessions the filter keeps, newest first, each once.
   */
  method Select(store: Store, keep: Session -> bool) returns (r: seq<Session>)
    ensures NewestFirst(r)
    ensures forall s :: s in r <==> s in store.Values && keep(s)
    ensures WellFormed(store) ==> DistinctIds(r)
  {
    r := [];
    var rest := store.Keys;
    while rest != {}
      invariant rest <= store.Keys
      invariant NewestFirst(r)
      invariant forall s :: s in r ==> s in store.Values && keep(s)
      invariant forall k :: k in store.Keys - rest && keep(store[k]) ==> store[k] in r
      invariant WellFormed(store) ==> DistinctIds(r) && forall s :: s in r ==> s.id in store.Keys - rest
      decreases rest
    {
      var k :| k in rest;
      if keep(store[k]) {
        InsertKeepsMembers(r, store[k]);
        InsertKeepsNewestFirst(r, store[k]);
        if WellFormed(store) {
          InsertKeepsDistinctIds(r, store[k]);
        }
        r := InsertNewestFirst(r, store[k]);
      }
      rest := rest - {k};
    }
  }

  /** `findForUser(userId)`: the sessions the user administers or is invited to, newest first. */
  method FindForUser(store: Store, u: UserId) returns (r: seq<Session>)
    ensures NewestFirst(r)
    ensures forall s :: s in r <==> s in store.Values && Member(s, u)
    ensures WellFormed(store) ==> DistinctIds(r)
  {
    r := Select(store, s => Member(s, u));
  }

  /** `findAll()`: every stored session, newest first. */
  method FindAll(store: Store) returns (r: seq<Session>)
    ensures NewestFirst(r)
    ensures forall s :: s in r <==> s in store.Values
    ensures WellFormed(store) ==> DistinctIds(r)
  {
    r := Select(store, s => true);
  }

  /**
   * `finishSession(sessionId, results)`: status becomes `completed` and
   * `results` is replaced wholesale; no other field changes. An unknown id
   * updates nothing and yields no document.
   */
  function FinishSession(store: Store, sid: SessionId, results: seq<TrackedResult>)
    : (r: (Store, Option<Session>))
    ensures r.1.None? <==> sid !in store
    ensures r.1.None? ==> r.0 == store
    ensures r.1.Some? ==>
      var s := r.1.value;
      && s.status == Completed
      && s.results == CastResults(results)
      && s.(status := store[sid].status, results := store[sid].results) == store[sid]
      && r.0 == store[sid := s]
    ensures WellFormed(store) ==> WellFormed(r.0)
  {
    if sid !in store then (store, None)
    else
      var s := store[sid].(status := Completed, results := CastResults(results));
      (store[sid := s], Some(s))
  }
}
