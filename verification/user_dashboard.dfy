/**
 * The participant's dashboard: the list of sessions the user is invited to and
 * the notification badge, as updated by a `new_invitation` event.
 */
module UserDashboard {
  import opened Schema
  import opened Lists
  import SessionsService

  datatype Dashboard = Dashboard(sessions: seq<Session>, notifications: nat)

  /**
   * The list merge on `new_invitation`: the invited session goes first and
   * every earlier entry with the same id is dropped; the other entries keep
   * their relative order.
   */
  function MergeInvitation(ss: seq<Session>, s: Session): (r: seq<Session>)
    ensures |r| >= 1 && r[0] == s
    ensures forall i :: 1 <= i < |r| ==> r[i].id != s.id && r[i] in ss
    ensures forall i :: 0 <= i < |ss| && ss[i].id != s.id ==> ss[i] in r
    ensures |r| <= |ss| + 1
    ensures |r| == |ss| + 1 <==> forall i :: 0 <= i < |ss| ==> ss[i].id != s.id
  {
    [s] + Filter(ss, (x: Session) => x.id != s.id)
  }

  /** The entries after the invited one are the old list's other entries, in order. */
  lemma MergeKeepsOrder(ss: seq<Session>, s: Session)
    ensures Subsequence(MergeInvitation(ss, s)[1..], ss)
  {
    var r := MergeInvitation(ss, s);
    assert r[1..] == Filter(ss, (x: Session) => x.id != s.id);
    FilterIsSubsequence(ss, (x: Session) => x.id != s.id);
  }

  /** A list without duplicate ids keeps that property through the merge. */
  lemma MergeKeepsDistinctIds(ss: seq<Session>, s: Session)
    requires SessionsService.DistinctIds(ss)
    ensures SessionsService.DistinctIds(MergeInvitation(ss, s))
  {
    var r := MergeInvitation(ss, s);
    var rest := r[1..];
    assert rest == Filter(ss, (x: Session) => x.id != s.id);
    MergeKeepsOrder(ss, s);
    SubsequenceKeepsDistinctIds(rest, ss);
  }

  /** A sub-list of a list with distinct ids has distinct ids. */
  lemma {:induction false} SubsequenceKeepsDistinctIds(a: seq<Session>, b: seq<Session>)
    requires SessionsService.DistinctIds(b) && Subsequence(a, b)
    ensures SessionsService.DistinctIds(a)
    decreases |b|
  {
    if a != [] {
      assert b != [];
      assert SessionsService.DistinctIds(b[1..]) by {
        assert forall i :: 0 <= i < |b[1..]| ==> b[1..][i] == b[i + 1];
      }
      if a[0] == b[0] {
        SubsequenceKeepsDistinctIds(a[1..], b[1..]);
        SubsequenceElementsFrom(a[1..], b[1..]);
        forall j | 1 <= j < |a|
          ensures a[0].id != a[j].id
        {
          assert a[1..][j - 1] == a[j];
        }
        forall i, j | 0 <= i < j < |a|
          ensures a[i].id != a[j].id
        {
          if i > 0 {
            assert a[1..][i - 1] == a[i] && a[1..][j - 1] == a[j];
          }
        }
      } else {
        SubsequenceKeepsDistinctIds(a, b[1..]);
      }
    }
  }

  /** Every element of a sub-list is an element of the list. */
  lemma {:induction false} SubsequenceElementsFrom(a: seq<Session>, b: seq<Session>)
    requires Subsequence(a, b)
    ensures forall j :: 0 <= j < |a| ==> a[j] in b
    decreases |b|
  {
    if a != [] {
      if a[0] == b[0] {
        SubsequenceElementsFrom(a[1..], b[1..]);
        forall j | 1 <= j < |a|
          ensures a[j] in b
        {
          assert a[1..][j - 1] == a[j];
          assert a[j] in b[1..];
        }
      } else {
        SubsequenceElementsFrom(a, b[1..]);
      }
    }
  }

  /** Merging the same invitation twice is merging it once. */
  lemma MergeTwiceIsMergeOnce(ss: seq<Session>, s: Session)
    ensures MergeInvitation(MergeInvitation(ss, s), s) == MergeInvitation(ss, s)
  {
    var p := (x: Session) => x.id != s.id;
    var once := MergeInvitation(ss, s);
    assert once[1..] == Filter(ss, p);
    assert Filter(once, p) == Filter(once[1..], p);
    FilterIdempotent(ss, p);
  }

  /**
   * The `new_invitation` handler: the list merge and a notification count
   * one higher, for a first invitation and a repeated one alike.
   */
  function OnNewInvitation(d: Dashboard, s: Session): (r: Dashboard)
    ensures r.notifications == d.notifications + 1
    ensures |r.sessions| >= 1 && r.sessions[0] == s
    ensures forall i :: 1 <= i < |r.sessions| ==> r.sessions[i].id != s.id
  {
    Dashboard(MergeInvitation(d.sessions, s), d.notifications + 1)
  }

  /** A re-invitation counts again on the badge, but does not add a second entry. */
  lemma ReinvitationCountsTwiceListsOnce(d: Dashboard, s: Session)
    ensures var twice := OnNewInvitation(OnNewInvitation(d, s), s);
            && twice.notifications == d.notifications + 2
            && twice.sessions == OnNewInvitation(d, s).sessions
  {
    MergeTwiceIsMergeOnce(d.sessions, s);
  }
}
