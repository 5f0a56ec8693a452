/**
 * The admin's dashboard: the search over sessions and users, the "already
 * invited" test and the invite buttons of a session card, the active-session
 * statistic, and the guard on creating a session.
 */
module AdminDashboard {
  import opened Wrappers
  import opened Schema
  import opened Lists
  import SessionsService

  // ---------------------------------------------------------------------------
  // Case-insensitive search
  // ---------------------------------------------------------------------------

  /** Lower-cases one ASCII letter; every other character is unchanged. */
  function LowerChar(c: char): (r: char)
    ensures 'A' <= c <= 'Z' ==> r as int == c as int + 32
    ensures !('A' <= c <= 'Z') ==> r == c
    ensures !('A' <= r <= 'Z')
  {
    if 'A' <= c <= 'Z' then (c as int + 32) as char else c
  }

  /** `toLowerCase` on ASCII text: the same length, each character lowered. */
  function Lower(s: string): (r: string)
    ensures |r| == |s|
    ensures forall i :: 0 <= i < |s| ==> r[i] == LowerChar(s[i])
  {
    if s == [] then [] else [LowerChar(s[0])] + Lower(s[1..])
  }

  /** Lower-casing twice is lower-casing once. */
  lemma LowerIdempotent(s: string)
    ensures Lower(Lower(s)) == Lower(s)
  {
    var once := Lower(s);
    assert forall i :: 0 <= i < |once| ==> LowerChar(once[i]) == once[i];
  }

  predicate IsPrefix(p: string, s: string) {
    |p| <= |s| && s[..|p|] == p
  }

  /** `haystack.includes(needle)`, searched from the left. */
  function Includes(haystack: string, needle: string): bool
    decreases |haystack|
  {
    IsPrefix(needle, haystack) || (haystack != [] && Includes(haystack[1..], needle))
  }

  /** The needle occurs at position `i` of the haystack. */
  predicate OccursAt(haystack: string, needle: string, i: int) {
    0 <= i && i + |needle| <= |haystack| && haystack[i..i + |needle|] == needle
  }

  /** `Includes` holds exactly when the needle occurs at some position. */
  lemma {:induction false} IncludesIffOccurs(haystack: string, needle: string)
    ensures Includes(haystack, needle) <==> exists i :: OccursAt(haystack, needle, i)
    decreases |haystack|
  {
    if IsPrefix(needle, haystack) {
      assert OccursAt(haystack, needle, 0);
    } else if haystack == [] {
      assert |needle| > 0;
      assert forall i :: !OccursAt(haystack, needle, i);
    } else {
      var tail := haystack[1..];
      IncludesIffOccurs(tail, needle);
      if Includes(tail, needle) {
        var i :| OccursAt(tail, needle, i);
        assert haystack[i + 1..i + 1 + |needle|] == tail[i..i + |needle|];
        assert OccursAt(haystack, needle, i + 1);
      }
      if exists i :: OccursAt(haystack, needle, i) {
        var i :| OccursAt(haystack, needle, i);
        assert i != 0;
        assert tail[i - 1..i - 1 + |needle|] == haystack[i..i + |needle|];
        assert OccursAt(tail, needle, i - 1);
      }
    }
  }

  /** The empty query is in every text. */
  lemma EmptyQueryMatches(text: string)
    ensures Includes(text, "")
  {
    assert IsPrefix("", text);
  }

  /** The search rule: the lower-cased text contains the lower-cased query. */
  predicate Matches(query: string, text: string) {
    Includes(Lower(text), Lower(query))
  }

  // ---------------------------------------------------------------------------
  // The lists the dashboard shows
  // ---------------------------------------------------------------------------

  /**
   * An invitee's `user` as the client receives it: a populated user object,
   * a raw id, or nothing.
   */
  datatype InviteeRef = Populated(id: UserId) | Raw(rawId: UserId) | Missing

  datatype ListedInvitee = ListedInvitee(user: InviteeRef, status: InviteeStatus)

  datatype ListedSession = ListedSession(id: SessionId, title: string, invitees: seq<ListedInvitee>, status: SessionStatus)

  datatype ListedUser = ListedUser(id: UserId, email: string)

  /** The search tab over sessions: in order, those whose title matches. */
  function FilteredSessions(ss: seq<ListedSession>, query: string): (r: seq<ListedSession>)
    ensures forall i :: 0 <= i < |r| ==> r[i] in ss && Matches(query, r[i].title)
    ensures forall i :: 0 <= i < |ss| && Matches(query, ss[i].title) ==> ss[i] in r
  {
    Filter(ss, (s: ListedSession) => Matches(query, s.title))
  }

  /** The search tab over users: in order, those whose e-mail matches. */
  function FilteredUsers(us: seq<ListedUser>, query: string): (r: seq<ListedUser>)
    ensures forall i :: 0 <= i < |r| ==> r[i] in us && Matches(query, r[i].email)
    ensures forall i :: 0 <= i < |us| && Matches(query, us[i].email) ==> us[i] in r
  {
    Filter(us, (u: ListedUser) => Matches(query, u.email))
  }

  /** Both searches keep their input's order. */
  lemma FiltersKeepOrder(ss: seq<ListedSession>, us: seq<ListedUser>, query: string)
    ensures Subsequence(FilteredSessions(ss, query), ss)
    ensures Subsequence(FilteredUsers(us, query), us)
  {
    FilterIsSubsequence(ss, (s: ListedSession) => Matches(query, s.title));
    FilterIsSubsequence(us, (u: ListedUser) => Matches(query, u.email));
  }

  /** An empty search box shows every session and every user. */
  lemma EmptyQueryKeepsAll(ss: seq<ListedSession>, us: seq<ListedUser>)
    ensures FilteredSessions(ss, "") == ss
    ensures FilteredUsers(us, "") == us
  {
    forall i | 0 <= i < |ss| ensures Matches("", ss[i].title) {
      EmptyQueryMatches(Lower(ss[i].title));
    }
    forall i | 0 <= i < |us| ensures Matches("", us[i].email) {
      EmptyQueryMatches(Lower(us[i].email));
    }
    FilterKeepsAll(ss, (s: ListedSession) => Matches("", s.title));
    FilterKeepsAll(us, (u: ListedUser) => Matches("", u.email));
  }

  // ---------------------------------------------------------------------------
  // Invitations from a session card
  // ---------------------------------------------------------------------------

  /**
   * The id an invitee reference compares as: a populated user's `_id` when it
   * is non-empty (an empty one falls back to the object, which equals no id),
   * a raw id as itself, and nothing for a missing user.
   */
  function RefId(r: InviteeRef): (id: Option<UserId>)
    ensures r.Raw? ==> id == Some(r.rawId)
    ensures r.Populated? ==> (id.Some? <==> r.id != "") && (id.Some? ==> id.value == r.id)
    ensures r.Missing? ==> id.None?
  {
    match r
    case Populated(id) => if id != "" then Some(id) else None
    case Raw(id) => Some(id)
    case Missing => None
  }

  /** `isInvited`: some invitee's user compares equal to the candidate's id. */
  predicate IsInvited(s: ListedSession, u: ListedUser) {
    exists i :: 0 <= i < |s.invitees| && RefId(s.invitees[i].user) == Some(u.id)
  }

  /**
   * A stored session as the dashboard receives it. The session queries
   * populate only the admin, so invitees arrive as raw ids; a populated
   * invitee list is the other shape the client accepts.
   */
  function AsListed(s: Session, populated: bool): (r: ListedSession)
    ensures r.id == s.id && r.title == s.title && r.status == s.status
    ensures |r.invitees| == |s.invitees|
    ensures forall i :: 0 <= i < |s.invitees| ==>
              && r.invitees[i].status == s.invitees[i].status
              && r.invitees[i].user == (if populated then Populated(s.invitees[i].user) else Raw(s.invitees[i].user))
  {
    ListedSession(s.id, s.title, ListInvitees(s.invitees, populated), s.status)
  }

  function ListInvitees(inv: seq<Invitee>, populated: bool): (r: seq<ListedInvitee>)
    ensures |r| == |inv|
    ensures forall i :: 0 <= i < |inv| ==>
              r[i] == ListedInvitee(if populated then Populated(inv[i].user) else Raw(inv[i].user), inv[i].status)
  {
    if inv == [] then []
    else [ListedInvitee(if populated then Populated(inv[0].user) else Raw(inv[0].user), inv[0].status)]
         + ListInvitees(inv[1..], populated)
  }

  /**
   * The client's `isInvited` agrees with the stored invitee list: always for
   * raw ids, and for populated ones whenever the candidate's id is non-empty.
   */
  lemma IsInvitedMatchesStore(s: Session, u: ListedUser, populated: bool)
    requires populated ==> u.id != ""
    ensures IsInvited(AsListed(s, populated), u) <==> IsInvitee(s, u.id)
  {
    var l := AsListed(s, populated);
    if IsInvitee(s, u.id) {
      var i :| 0 <= i < |s.invitees| && s.invitees[i].user == u.id;
      assert RefId(l.invitees[i].user) == Some(u.id);
    }
    if IsInvited(l, u) {
      var i :| 0 <= i < |l.invitees| && RefId(l.invitees[i].user) == Some(u.id);
      assert s.invitees[i].user == u.id;
    }
  }

  /** A populated user object with an empty `_id` matches no candidate, not even one with an empty id. */
  lemma EmptyPopulatedIdMatchesNothing(s: ListedSession, u: ListedUser)
    requires forall i :: 0 <= i < |s.invitees| ==> s.invitees[i].user == Populated("")
    ensures !IsInvited(s, u)
  {
  }

  /** The up to four users offered on a session card: everyone but the signed-in admin. */
  function InviteCandidates(users: seq<ListedUser>, me: Option<UserId>): (r: seq<ListedUser>)
    ensures |r| <= 4
    ensures forall i :: 0 <= i < |r| ==> r[i] in users && (me.Some? ==> r[i].id != me.value)
  {
    var others := Filter(users, (u: ListedUser) => me.None? || u.id != me.value);
    if |others| <= 4 then others else others[..4]
  }

  /** The candidates are the first four other users, in list order. */
  lemma CandidatesAreFirstOthers(users: seq<ListedUser>, me: Option<UserId>)
    ensures var others := Filter(users, (u: ListedUser) => me.None? || u.id != me.value);
            && InviteCandidates(users, me) <= others
            && (|others| <= 4 ==> InviteCandidates(users, me) == others)
            && (|others| > 4 ==> InviteCandidates(users, me) == others[..4])
            && Subsequence(InviteCandidates(users, me), users)
  {
    var others := Filter(users, (u: ListedUser) => me.None? || u.id != me.value);
    FilterIsSubsequence(users, (u: ListedUser) => me.None? || u.id != me.value);
    PrefixOfSubsequence(InviteCandidates(users, me), others, users);
  }

  /** A prefix of a sub-list is a sub-list. */
  lemma {:induction false} PrefixOfSubsequence<T>(a: seq<T>, b: seq<T>, c: seq<T>)
    requires a <= b && Subsequence(b, c)
    ensures Subsequence(a, c)
    decreases |c|
  {
    if a != [] {
      assert b != [] && c != [];
      if b[0] == c[0] {
        PrefixOfSubsequence(a[1..], b[1..], c[1..]);
      } else {
        PrefixOfSubsequence(a, b, c[1..]);
      }
    }
  }

  /** The marker for an invitation in flight: the session id followed by the user id. */
  function InviteKey(sid: SessionId, uid: UserId): string {
    sid + uid
  }

  /** For session ids of one length (database ids are), distinct pairs have distinct markers. */
  lemma InviteKeyInjective(s1: SessionId, u1: UserId, s2: SessionId, u2: UserId)
    requires |s1| == |s2| && InviteKey(s1, u1) == InviteKey(s2, u2)
    ensures s1 == s2 && u1 == u2
  {
    var k := InviteKey(s1, u1);
    assert s1 == k[..|s1|] && s2 == k[..|s2|];
    assert u1 == k[|s1|..] && u2 == k[|s2|..];
  }

  /** The dashboard's own state: its lists, the search box, the create form and the invite marker. */
  datatype Board = Board(
    sessions: seq<ListedSession>,
    users: seq<ListedUser>,
    query: string,
    newTitle: string,
    loading: bool,
    inviting: Option<string>)

  /** An invite button is disabled when the user is invited or that very invitation is in flight. */
  predicate InviteDisabled(b: Board, s: ListedSession, u: ListedUser) {
    IsInvited(s, u) || b.inviting == Some(InviteKey(s.id, u.id))
  }

  /** `handleInvite` starts: the pair is marked as in flight. */
  function BeginInvite(b: Board, sid: SessionId, uid: UserId): (r: Board)
    ensures r.inviting == Some(InviteKey(sid, uid))
    ensures r == b.(inviting := r.inviting)
  {
    b.(inviting := Some(InviteKey(sid, uid)))
  }

  /**
   * `handleInvite` settles: the marker is cleared either way; the lists are
   * replaced by the refetched ones only when the invitation succeeded (`ok`),
   * and a failure is only logged.
   */
  function SettleInvite(b: Board, ok: bool, sessions: seq<ListedSession>, users: seq<ListedUser>): (r: Board)
    ensures r.inviting == None
    ensures ok ==> r.sessions == sessions && r.users == users
    ensures !ok ==> r.sessions == b.sessions && r.users == b.users
    ensures r.query == b.query && r.newTitle == b.newTitle && r.loading == b.loading
  {
    if ok then b.(inviting := None, sessions := sessions, users := users)
    else b.(inviting := None)
  }

  /**
   * While an invitation is in flight its button is disabled; once it has
   * settled, a button is disabled exactly when the user is invited.
   */
  lemma InviteButtonLifecycle(b: Board, s: ListedSession, u: ListedUser,
                              ok: bool, sessions: seq<ListedSession>, users: seq<ListedUser>)
    ensures InviteDisabled(BeginInvite(b, s.id, u.id), s, u)
    ensures var settled := SettleInvite(BeginInvite(b, s.id, u.id), ok, sessions, users);
            InviteDisabled(settled, s, u) <==> IsInvited(s, u)
  {
  }

  /**
   * The page keeps one in-flight marker, not one per pair. Beginning a second
   * invitation re-enables the first pair's button although its request is
   * still in flight, and the first request settling re-enables the second
   * pair's button while the second is still in flight.
   */
  lemma SingleInviteMarker(b: Board, s: ListedSession, u: ListedUser, sid: SessionId, uid: UserId,
                           ok: bool, sessions: seq<ListedSession>, users: seq<ListedUser>)
    requires InviteKey(sid, uid) != InviteKey(s.id, u.id)
    ensures InviteDisabled(BeginInvite(BeginInvite(b, s.id, u.id), sid, uid), s, u) <==> IsInvited(s, u)
    ensures var first := SettleInvite(BeginInvite(BeginInvite(b, sid, uid), s.id, u.id), ok, sessions, users);
            InviteDisabled(first, s, u) <==> IsInvited(s, u)
  {
  }

  // ---------------------------------------------------------------------------
  // Statistics and the create form
  // ---------------------------------------------------------------------------

  /** The "active sessions" statistic. */
  function ActiveCount(ss: seq<ListedSession>): (n: nat)
    ensures n <= |ss|
    ensures n == |ss| <==> forall i :: 0 <= i < |ss| ==> ss[i].status == Active
    ensures n == 0 <==> forall i :: 0 <= i < |ss| ==> ss[i].status != Active
  {
    var active := Filter(ss, (s: ListedSession) => s.status == Active);
    assert active != [] ==> active[0] in ss;
    |active|
  }

  /** The statistic adds up over any split of the list. */
  lemma ActiveCountAdds(a: seq<ListedSession>, b: seq<ListedSession>)
    ensures ActiveCount(a + b) == ActiveCount(a) + ActiveCount(b)
  {
    FilterConcat(a, b, (s: ListedSession) => s.status == Active);
  }

  /** The create form sends its title only when the title is non-empty. */
  function CreateRequest(b: Board): (r: Option<string>)
    ensures r.None? <==> b.newTitle == ""
    ensures r.Some? ==> r.value == b.newTitle
  {
    if b.newTitle == "" then None else Some(b.newTitle)
  }

  /**
   * Every title the form sends passes the schema's title requirement: with an
   * admin id and a fresh session id, the store creates the session.
   */
  lemma CreateRequestNeverInvalid(b: Board, store: SessionsService.Store, id: SessionId, admin: UserId, now: int)
    requires CreateRequest(b).Some? && admin != "" && id !in store
    ensures SessionsService.Create(store, id, CreateRequest(b).value, admin, now).Success?
  {
  }
}
