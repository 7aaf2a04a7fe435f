/** The Postgres store behind utils/Utility.java and events/Utility.java: the
    `config(key, value)` table and the `submissions(trackid, userid, messageid,
    submissionid)` table, as state that the static helpers change in place.
    The JDBC connection and SQL text are not modelled; every statement reaches
    the table it names. */
module Store {
  import opened Basics

  /** A row of the submissions table (utils/Submission.java). */
  datatype Submission = Submission(trackId: string, userId: string, messageId: string, submissionId: int)

  /** An entry of the CURATORS list (utils/Curator.java). */
  datatype Curator = Curator(name: string, id: string)

  /** Submission ids strictly increase along the table, so each id names one row. */
  ghost predicate IncreasingIds(rows: seq<Submission>) {
    forall i, j :: 0 <= i < j < |rows| ==> rows[i].submissionId < rows[j].submissionId
  }

  /** The rows whose submission id is not in `ids`, in table order. */
  function WithoutIds(rows: seq<Submission>, ids: set<int>): (r: seq<Submission>)
    ensures |r| <= |rows|
    ensures forall x :: x in r <==> x in rows && x.submissionId !in ids
  {
    if rows == [] then []
    else
      var last := rows[|rows| - 1];
      var init := WithoutIds(rows[..|rows| - 1], ids);
      assert rows == rows[..|rows| - 1] + [last];
      if last.submissionId in ids then init else init + [last]
  }

  lemma {:induction false} WithoutIdsAppend(rows: seq<Submission>, row: Submission, ids: set<int>)
    ensures WithoutIds(rows + [row], ids)
         == WithoutIds(rows, ids) + (if row.submissionId in ids then [] else [row])
  {
    assert (rows + [row])[..|rows + [row]| - 1] == rows;
  }

  /** Every row before the last has a smaller id than the last. */
  lemma InitBelowLast(rows: seq<Submission>)
    requires IncreasingIds(rows) && rows != []
    ensures forall x :: x in rows[..|rows| - 1] ==> x.submissionId < rows[|rows| - 1].submissionId
  {
    forall x | x in rows[..|rows| - 1] ensures x.submissionId < rows[|rows| - 1].submissionId {
      var i :| 0 <= i < |rows| - 1 && rows[..|rows| - 1][i] == x;
      assert rows[i] == x;
    }
  }

  /** Appending a row with a larger id than all others keeps the order. */
  lemma IncreasingAppend(rows: seq<Submission>, row: Submission)
    requires IncreasingIds(rows)
    requires forall x :: x in rows ==> x.submissionId < row.submissionId
    ensures IncreasingIds(rows + [row])
  {
    forall i, j | 0 <= i < j < |rows| + 1 ensures (rows + [row])[i].submissionId < (rows + [row])[j].submissionId {
      if j == |rows| {
        assert rows[i] in rows;
      }
    }
  }

  /** Deleting by id keeps the remaining rows in order. */
  lemma {:induction false} WithoutIdsIncreasing(rows: seq<Submission>, ids: set<int>)
    requires IncreasingIds(rows)
    ensures IncreasingIds(WithoutIds(rows, ids))
  {
    if rows != [] {
      var init := rows[..|rows| - 1];
      var last := rows[|rows| - 1];
      assert rows == init + [last];
      WithoutIdsIncreasing(init, ids);
      InitBelowLast(rows);
      WithoutIdsAppend(init, last, ids);
      if last.submissionId !in ids {
        IncreasingAppend(WithoutIds(init, ids), last);
      }
    }
  }

  /** Two deletions by id are one deletion of both id sets. */
  lemma {:induction false} WithoutIdsTwice(rows: seq<Submission>, a: set<int>, b: set<int>)
    ensures WithoutIds(WithoutIds(rows, a), b) == WithoutIds(rows, a + b)
  {
    if rows != [] {
      var init := rows[..|rows| - 1];
      var last := rows[|rows| - 1];
      assert rows == init + [last];
      WithoutIdsTwice(init, a, b);
      WithoutIdsAppend(init, last, a);
      WithoutIdsAppend(init, last, a + b);
      if last.submissionId !in a {
        WithoutIdsAppend(WithoutIds(init, a), last, b);
      }
    }
  }

  /** Only the ids that occur in the table matter to a deletion. */
  lemma {:induction false} WithoutIdsIgnoresAbsent(rows: seq<Submission>, ids: set<int>, extra: int)
    requires forall x :: x in rows ==> x.submissionId != extra
    ensures WithoutIds(rows, ids + {extra}) == WithoutIds(rows, ids)
  {
    if rows != [] {
      var init := rows[..|rows| - 1];
      var last := rows[|rows| - 1];
      assert rows == init + [last];
      WithoutIdsIgnoresAbsent(init, ids, extra);
      WithoutIdsAppend(init, last, ids);
      WithoutIdsAppend(init, last, ids + {extra});
    }
  }

  lemma {:induction false} WithoutIdsConcat(a: seq<Submission>, b: seq<Submission>, ids: set<int>)
    ensures WithoutIds(a + b, ids) == WithoutIds(a, ids) + WithoutIds(b, ids)
  {
    if b != [] {
      var init := b[..|b| - 1];
      var last := b[|b| - 1];
      assert b == init + [last];
      assert a + b == (a + init) + [last];
      WithoutIdsConcat(a, init, ids);
      WithoutIdsAppend(a + init, last, ids);
      WithoutIdsAppend(init, last, ids);
    } else {
      assert a + b == a;
    }
  }

  /** `DELETE FROM submissions WHERE submissionid = ?` on a table with unique ids
      removes exactly the one row carrying that id, and keeps the others in order. */
  lemma DeleteRemovesExactlyOneRow(rows: seq<Submission>, k: nat)
    requires IncreasingIds(rows) && k < |rows|
    ensures WithoutIds(rows, {rows[k].submissionId}) == rows[..k] + rows[k + 1..]
  {
    var ids := {rows[k].submissionId};
    var a, b := rows[..k], rows[k + 1..];
    assert rows == a + [rows[k]] + b;
    OtherRowsHaveOtherIds(rows, k);
    NoRowWithId(a, ids);
    NoRowWithId(b, ids);
    WithoutIdsConcat(a + [rows[k]], b, ids);
    WithoutIdsAppend(a, rows[k], ids);
  }

  lemma OtherRowsHaveOtherIds(rows: seq<Submission>, k: nat)
    requires IncreasingIds(rows) && k < |rows|
    ensures forall x :: x in rows[..k] ==> x.submissionId !in {rows[k].submissionId}
    ensures forall x :: x in rows[k + 1..] ==> x.submissionId !in {rows[k].submissionId}
  {
    forall x | x in rows[..k] ensures x.submissionId < rows[k].submissionId {
      var i :| 0 <= i < k && rows[..k][i] == x;
      assert rows[i] == x;
    }
    forall x | x in rows[k + 1..] ensures x.submissionId > rows[k].submissionId {
      var i :| 0 <= i < |rows| - k - 1 && rows[k + 1..][i] == x;
      assert rows[k + 1 + i] == x;
    }
  }

  lemma {:induction false} NoRowWithId(rows: seq<Submission>, ids: set<int>)
    requires forall x :: x in rows ==> x.submissionId !in ids
    ensures WithoutIds(rows, ids) == rows
  {
    if rows != [] {
      var init := rows[..|rows| - 1];
      assert rows == init + [rows[|rows| - 1]];
      NoRowWithId(init, ids);
      WithoutIdsAppend(init, rows[|rows| - 1], ids);
    }
  }

  /** How many rows `fetchAllSubmissions` reads from a table of n rows when the
      SQL error, if any, strikes after `failAfter` rows. */
  function RowsRead(failAfter: Option<nat>, n: nat): (k: nat)
    ensures k <= n
    ensures failAfter.None? ==> k == n
  {
    if failAfter.Some? && failAfter.value < n then failAfter.value else n
  }

  /** `Utility.isCurator` (and `CommentWatcher.isCurator`): some curator's id
      equals the user's id. */
  function IsCurator(curators: seq<Curator>, userId: string): (r: bool)
    ensures r <==> exists i :: 0 <= i < |curators| && curators[i].id == userId
  {
    if curators == [] then false
    else if curators[0].id == userId then true
    else
      var rest := IsCurator(curators[1..], userId);
      assert forall i :: 1 <= i < |curators| ==> curators[i] == curators[1..][i - 1];
      assert rest ==> exists i :: 1 <= i < |curators| && curators[i].id == userId by {
        if rest {
          var j :| 0 <= j < |curators[1..]| && curators[1..][j].id == userId;
          assert curators[j + 1].id == userId;
        }
      }
      rest
  }

  /** The key the id of the "Submitted" role is stored under. */
  const SUBMITTED_ROLE_ID: string := "SUBMITTED_ROLE_ID"

  /** The database both Utility classes talk to. */
  class Database {
    /** The config table: a key may hold SQL NULL (None). */
    var config: map<string, Option<string>>
    /** The submissions table, in the order the rows were inserted. */
    var rows: seq<Submission>
    /** The next value of the serial `submissionid` column. */
    var nextId: int

    ghost predicate Valid()
      reads this
    {
      && IncreasingIds(rows)
      && forall x :: x in rows ==> x.submissionId < nextId
    }

    constructor (config: map<string, Option<string>>)
      ensures Valid()
      ensures this.config == config && rows == [] && nextId == 1
    {
      this.config := config;
      rows := [];
      nextId := 1;
    }

    /** `readFromDatabase(key)`: the stored value, or null when the key is absent. */
    function ReadFromDatabase(key: string): (v: Option<string>)
      reads this
      ensures key !in config ==> v == None
      ensures key in config ==> v == config[key]
    {
      if key in config then config[key] else None
    }

    /** `saveToDatabase(key, value)`: INSERT ... ON CONFLICT (key) DO UPDATE, an upsert. */
    method SaveToDatabase(key: string, value: Option<string>)
      requires Valid()
      modifies this
      ensures Valid()
      ensures config == old(config)[key := value]
      ensures ReadFromDatabase(key) == value
      ensures rows == old(rows) && nextId == old(nextId)
    {
      config := config[key := value];
    }

    /** `saveTrackSubmission`: one new row with the given triple and a fresh serial id. */
    method SaveTrackSubmission(trackId: string, userId: string, messageId: string)
      requires Valid()
      modifies this
      ensures Valid()
      ensures rows == old(rows) + [Submission(trackId, userId, messageId, old(nextId))]
      ensures nextId == old(nextId) + 1 && config == old(config)
    {
      rows := rows + [Submission(trackId, userId, messageId, nextId)];
      nextId := nextId + 1;
    }

    /** `deleteSubmission(submissionId)`: removes the rows carrying that id and no other. */
    method DeleteSubmission(submissionId: int)
      requires Valid()
      modifies this
      ensures Valid()
      ensures rows == WithoutIds(old(rows), {submissionId})
      ensures config == old(config) && nextId == old(nextId)
    {
      WithoutIdsIncreasing(rows, {submissionId});
      rows := WithoutIds(rows, {submissionId});
    }

    /** `fetchAllSubmissions`: reads the result set row by row into a list; an
        SQL error after `failAfter` rows ends the loop and the rows collected so
        far are returned. */
    method FetchAllSubmissions(failAfter: Option<nat>) returns (list: seq<Submission>)
      ensures list == rows[..RowsRead(failAfter, |rows|)]
      ensures failAfter.None? ==> list == rows
    {
      list := [];
      var i := 0;
      while i < |rows|
        invariant 0 <= i <= RowsRead(failAfter, |rows|)
        invariant list == rows[..i]
        decreases |rows| - i
      {
        if failAfter == Some(i) {
          break;
        }
        list := list + [rows[i]];
        i := i + 1;
      }
      assert rows[..|rows|] == rows;
    }
  }
}
