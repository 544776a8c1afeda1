/**
 * The `analyses` table and the two calls over it: saving one analysis, and listing a
 * user's analyses newest first. Database failures come back as a value, never thrown.
 */
module History {
  import opened Wrappers
  import Database

  /** One saved analysis; `id` and `createdAt` (ms) are assigned by the database. */
  datatype AnalysisRecord = AnalysisRecord(
    id: string,
    userId: string,
    title: string,
    content: string,
    report: string,
    createdAt: int)

  type Table = seq<AnalysisRecord>

  /** `{ data, error }` as both calls return it. */
  datatype Reply = Reply(data: Option<seq<AnalysisRecord>>, error: Option<string>)

  /** The call's reply and the table after it. */
  datatype Saved = Saved(reply: Reply, table: Table)

  /**
   * `saveAnalysis(userId, title, content, report)`: inserts one row, with `id` and
   * `createdAt` the values the database fills in, and returns it; on a database error
   * nothing is inserted and the error is returned.
   */
  function SaveAnalysis(t: Table, userId: string, title: string, content: string, report: string,
                        id: string, createdAt: int, ack: Database.Ack): (s: Saved)
    ensures ack.Stored? ==> |s.table| == |t| + 1 && s.table[..|t|] == t
    ensures ack.Stored? ==>
      var row := s.table[|t|];
      && row.userId == userId && row.title == title && row.content == content && row.report == report
      && s.reply == Reply(Some([row]), None)
    ensures ack.DbError? ==> s == Saved(Reply(None, Some(ack.message)), t)
  {
    match ack
    case Stored =>
      var row := AnalysisRecord(id, userId, title, content, report, createdAt);
      Saved(Reply(Some([row]), None), t + [row])
    case DbError(msg) => Saved(Reply(None, Some(msg)), t)
  }

  /** The rows of `user`, in table order. */
  function RowsOf(t: Table, user: string): (r: Table)
    ensures forall x :: x in r <==> x in t && x.userId == user
    ensures forall x: AnalysisRecord :: x.userId == user ==> multiset(r)[x] == multiset(t)[x]
  {
    if t == [] then []
    else
      assert t == [t[0]] + t[1..];
      if t[0].userId == user then [t[0]] + RowsOf(t[1..], user) else RowsOf(t[1..], user)
  }

  /** Newest first: `created_at` never increases along the sequence. */
  ghost predicate NewestFirst(s: Table) {
    forall i, j :: 0 <= i < j < |s| ==> s[i].createdAt >= s[j].createdAt
  }

  /** Places `x` in a newest-first sequence before the first row that is not newer than it. */
  function Insert(x: AnalysisRecord, s: Table): (r: Table)
    requires NewestFirst(s)
    ensures NewestFirst(r)
    ensures multiset(r) == multiset(s) + multiset{x}
  {
    if s == [] || x.createdAt >= s[0].createdAt then [x] + s
    else
      TailNewestFirst(s);
      var rest := Insert(x, s[1..]);
      ConsKeepsOrder(x, s, rest);
      [s[0]] + rest
  }

  lemma TailNewestFirst(s: Table)
    requires NewestFirst(s) && s != []
    ensures NewestFirst(s[1..])
  {
    forall i, j | 0 <= i < j < |s[1..]| ensures s[1..][i].createdAt >= s[1..][j].createdAt {
      assert s[1..][i] == s[i + 1] && s[1..][j] == s[j + 1];
    }
  }

  /** Putting the head back in front of the insertion into the tail keeps the order and the rows. */
  lemma ConsKeepsOrder(x: AnalysisRecord, s: Table, rest: Table)
    requires NewestFirst(s) && s != [] && x.createdAt < s[0].createdAt
    requires NewestFirst(rest)
    requires multiset(rest) == multiset(s[1..]) + multiset{x}
    ensures NewestFirst([s[0]] + rest)
    ensures multiset([s[0]] + rest) == multiset(s) + multiset{x}
  {
    assert multiset(s) == multiset{s[0]} + multiset(s[1..]) by { assert s == [s[0]] + s[1..]; }
    NotNewerThanHead(x, s, rest);
    var r := [s[0]] + rest;
    forall i, j | 0 <= i < j < |r| ensures r[i].createdAt >= r[j].createdAt {
      if i == 0 { assert r[j] == rest[j - 1]; } else { assert r[i] == rest[i - 1] && r[j] == rest[j - 1]; }
    }
  }

  lemma NotNewerThanHead(x: AnalysisRecord, s: Table, rest: Table)
    requires NewestFirst(s) && s != [] && x.createdAt < s[0].createdAt
    requires multiset(rest) == multiset(s[1..]) + multiset{x}
    ensures forall k :: 0 <= k < |rest| ==> rest[k].createdAt <= s[0].createdAt
  {
    forall k | 0 <= k < |rest| ensures rest[k].createdAt <= s[0].createdAt {
      assert rest[k] in multiset(rest);
      if rest[k] != x {
        assert rest[k] in multiset(s[1..]);
        var m :| 0 <= m < |s[1..]| && s[1..][m] == rest[k];
        assert s[m + 1] == rest[k];
      }
    }
  }

  /** Orders rows newest first (`.order('created_at', { ascending: false })`). */
  function SortNewestFirst(s: Table): (r: Table)
    ensures NewestFirst(r)
    ensures multiset(r) == multiset(s)
  {
    if s == [] then []
    else
      assert s == [s[0]] + s[1..];
      Insert(s[0], SortNewestFirst(s[1..]))
  }

  /**
   * `getUserHistory(userId)`: exactly the user's rows, each as often as stored, newest
   * first; a failed read comes back as the error.
   */
  function GetUserHistory(db: Database.Read<Table>, userId: string): (reply: Reply)
    ensures db.ReadError? ==> reply == Reply(None, Some(db.message))
    ensures db.Rows? ==> reply.error.None? && reply.data.Some?
    ensures db.Rows? ==> NewestFirst(reply.data.value)
    ensures db.Rows? ==> forall x :: x in reply.data.value ==> x.userId == userId
    ensures db.Rows? ==> forall x: AnalysisRecord :: x.userId == userId ==> multiset(reply.data.value)[x] == multiset(db.value)[x]
  {
    match db
    case ReadError(msg) => Reply(None, Some(msg))
    case Rows(t) =>
      var r := SortNewestFirst(RowsOf(t, userId));
      assert forall x :: x in r ==> x in multiset(RowsOf(t, userId));
      Reply(Some(r), None)
  }

  /** Saving leaves every earlier row of every user where and as it was. */
  lemma SaveKeepsExistingRows(t: Table, userId: string, title: string, content: string, report: string,
                              id: string, createdAt: int, ack: Database.Ack)
    ensures var s := SaveAnalysis(t, userId, title, content, report, id, createdAt, ack);
      forall i :: 0 <= i < |t| ==> s.table[i] == t[i]
  {
  }

  /** An analysis saved later than all the user's earlier ones heads the user's history. */
  lemma LatestSaveComesFirst(t: Table, userId: string, title: string, content: string, report: string,
                             id: string, createdAt: int)
    requires forall x :: x in t && x.userId == userId ==> x.createdAt < createdAt
    ensures var s := SaveAnalysis(t, userId, title, content, report, id, createdAt, Database.Stored);
      var h := GetUserHistory(Database.Rows(s.table), userId).data.value;
      |h| > 0 && h[0] == AnalysisRecord(id, userId, title, content, report, createdAt)
  {
    var row := AnalysisRecord(id, userId, title, content, report, createdAt);
    var s := SaveAnalysis(t, userId, title, content, report, id, createdAt, Database.Stored);
    var h := GetUserHistory(Database.Rows(s.table), userId).data.value;
    assert s.table == t + [row];
    assert multiset(s.table)[row] > 0;
    assert row in h;
    forall x | x in h ensures x == row || x.createdAt < createdAt {
      assert x in multiset(h);
      assert x in s.table;
    }
    var k :| 0 <= k < |h| && h[k] == row;
    assert h[0].createdAt >= h[k].createdAt;
  }
}
