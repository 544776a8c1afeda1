/** Whether a user currently holds a paid subscription, as read from the `subscriptions` table. */
module Entitlement {
  import opened Wrappers
  import opened SubscriptionTable
  import Database

  /** The statuses the query admits. */
  predicate EntitledStatus(status: string) {
    status == "active" || status == "trialing"
  }

  /** The rows `.eq('user_id', user).in('status', ['active', 'trialing'])` selects, in table order. */
  function Candidates(t: Table, user: string): (r: seq<Row>)
    ensures |r| <= |t|
    ensures forall x :: x in r <==> x in t && x.userId == user && EntitledStatus(x.status)
    ensures forall x :: multiset(r)[x] == if x.userId == user && EntitledStatus(x.status) then multiset(t)[x] else 0
  {
    if t == [] then []
    else
      var rest := Candidates(t[1..], user);
      assert forall x :: x in t <==> x == t[0] || x in t[1..];
      assert multiset(t) == multiset{t[0]} + multiset(t[1..]) by { assert t == [t[0]] + t[1..]; }
      if t[0].userId == user && EntitledStatus(t[0].status) then [t[0]] + rest else rest
  }

  /**
   * `checkSubscriptionStatus(user)` at time `now` (ms). `.single()` fails unless exactly
   * one row is selected, and a failed read or query gives false rather than an exception.
   * The answer is true only for a single admitted row whose period end is absent or not
   * before `now`.
   */
  function CheckSubscriptionStatus(db: Database.Read<Table>, user: string, now: int): (b: bool)
    ensures b ==> db.Rows? && |Candidates(db.value, user)| == 1
    ensures b ==> var row := Candidates(db.value, user)[0];
      && row in db.value && row.userId == user && EntitledStatus(row.status)
      && (row.periodEnd.None? || row.periodEnd.value >= now)
    ensures db.Rows? && |Candidates(db.value, user)| == 1 && Candidates(db.value, user)[0].periodEnd.None? ==> b
  {
    match db
    case ReadError(_) => false
    case Rows(t) =>
      var c := Candidates(t, user);
      if |c| != 1 then false
      else match c[0].periodEnd
        case None => true
        case Some(end) => !(end < now)
  }

  /** A period end equal to `now` still entitles: the comparison is strict. */
  lemma PeriodEndIsInclusive(t: Table, user: string, now: int)
    requires |Candidates(t, user)| == 1 && Candidates(t, user)[0].periodEnd == Some(now)
    ensures CheckSubscriptionStatus(Database.Rows(t), user, now)
  {
  }

  /** Entitlement can only be lost as time passes: false at `now` stays false at every later time. */
  lemma EntitlementIsAntitone(db: Database.Read<Table>, user: string, now: int, later: int)
    requires now <= later
    ensures CheckSubscriptionStatus(db, user, later) ==> CheckSubscriptionStatus(db, user, now)
  {
  }

  /** A user without rows has no candidates. */
  lemma {:induction false} NoRowsNoCandidates(t: Table, user: string)
    requires forall j :: 0 <= j < |t| ==> t[j].userId != user
    ensures Candidates(t, user) == []
  {
    if t != [] {
      NoRowsNoCandidates(t[1..], user);
    }
  }

  /** With one row per user the query selects at most that row. */
  lemma {:induction false} CandidatesOfUniqueTable(t: Table, user: string)
    requires UniqueUsers(t)
    ensures |Candidates(t, user)| <= 1
    ensures forall i :: 0 <= i < |t| && t[i].userId == user && EntitledStatus(t[i].status) ==>
      Candidates(t, user) == [t[i]]
  {
    if t != [] {
      var rest := Candidates(t[1..], user);
      assert UniqueUsers(t[1..]) by {
        forall i, j | 0 <= i < j < |t[1..]| ensures t[1..][i].userId != t[1..][j].userId {
          assert t[1..][i] == t[i + 1] && t[1..][j] == t[j + 1];
        }
      }
      CandidatesOfUniqueTable(t[1..], user);
      if t[0].userId == user {
        assert forall j :: 0 <= j < |t[1..]| ==> t[1..][j].userId != user by {
          assert forall j :: 0 < j < |t| ==> t[j].userId != t[0].userId;
        }
        NoRowsNoCandidates(t[1..], user);
      }
      forall i | 0 <= i < |t| && t[i].userId == user && EntitledStatus(t[i].status)
        ensures Candidates(t, user) == [t[i]]
      {
        if i > 0 {
          assert t[1..][i - 1] == t[i];
          assert t[0].userId != user;
        }
      }
    }
  }

  /**
   * With one row per user, the user is entitled exactly when their row has an admitted
   * status and a period end that is absent or not before `now`.
   */
  lemma EntitledIffOwnRowIsCurrent(t: Table, user: string, now: int)
    requires UniqueUsers(t)
    ensures CheckSubscriptionStatus(Database.Rows(t), user, now) <==>
      exists i :: 0 <= i < |t| && t[i].userId == user && EntitledStatus(t[i].status)
        && (t[i].periodEnd.None? || t[i].periodEnd.value >= now)
  {
    CandidatesOfUniqueTable(t, user);
    var c := Candidates(t, user);
    if CheckSubscriptionStatus(Database.Rows(t), user, now) {
      var k :| 0 <= k < |t| && t[k] == c[0];
    }
  }
}
