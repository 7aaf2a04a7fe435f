/** What `processSubmissions` of api/SpotifyAPI.java decides for the submission
    rows it read, given the track ids of the approved playlist and of the
    submissions (pending) playlist: which rows are resolved (a reaction is
    emitted and the row deleted) and which stay pending review. */
module Reconciliation {
  import opened Basics
  import opened Store

  /** The emoji every resolved row gets. */
  const CheckMark: string := "\U{2705}"

  /** utils/ReactionInfo: the message to react to, its author and the emoji. */
  datatype ReactionInfo = ReactionInfo(userId: string, messageId: string, emoji: string)

  /** A row is resolved when its track is in the approved playlist, or when it is
      no longer in the submissions playlist (rejected or removed). */
  predicate Resolved(row: Submission, approved: set<Option<string>>, pending: set<Option<string>>) {
    Some(row.trackId) in approved || Some(row.trackId) !in pending
  }

  /** The reactions for `rows`, in table order: one check mark per resolved row. */
  function ReactionsFor(rows: seq<Submission>, approved: set<Option<string>>, pending: set<Option<string>>): (r: seq<ReactionInfo>)
    ensures |r| <= |rows|
    ensures forall k :: 0 <= k < |r| ==> r[k].emoji == CheckMark
  {
    if rows == [] then []
    else
      var last := rows[|rows| - 1];
      ReactionsFor(rows[..|rows| - 1], approved, pending)
        + (if Resolved(last, approved, pending) then [ReactionInfo(last.userId, last.messageId, CheckMark)] else [])
  }

  /** The submission ids of the resolved rows. */
  function ResolvedIds(rows: seq<Submission>, approved: set<Option<string>>, pending: set<Option<string>>): set<int> {
    if rows == [] then {}
    else
      var last := rows[|rows| - 1];
      ResolvedIds(rows[..|rows| - 1], approved, pending)
        + (if Resolved(last, approved, pending) then {last.submissionId} else {})
  }

  /** The rows that stay in the table, pending review, in table order. */
  function KeptRows(rows: seq<Submission>, approved: set<Option<string>>, pending: set<Option<string>>): (r: seq<Submission>)
    ensures |r| <= |rows|
  {
    if rows == [] then []
    else
      var last := rows[|rows| - 1];
      KeptRows(rows[..|rows| - 1], approved, pending)
        + (if Resolved(last, approved, pending) then [] else [last])
  }

  lemma AppendUnfolds(rows: seq<Submission>, row: Submission, approved: set<Option<string>>, pending: set<Option<string>>)
    ensures ReactionsFor(rows + [row], approved, pending)
         == ReactionsFor(rows, approved, pending)
            + (if Resolved(row, approved, pending) then [ReactionInfo(row.userId, row.messageId, CheckMark)] else [])
    ensures ResolvedIds(rows + [row], approved, pending)
         == ResolvedIds(rows, approved, pending) + (if Resolved(row, approved, pending) then {row.submissionId} else {})
    ensures KeptRows(rows + [row], approved, pending)
         == KeptRows(rows, approved, pending) + (if Resolved(row, approved, pending) then [] else [row])
  {
    assert (rows + [row])[..|rows|] == rows;
  }

  /** One more row of `rows` read: the step of a loop over the rows. */
  lemma PrefixStep(rows: seq<Submission>, i: nat, approved: set<Option<string>>, pending: set<Option<string>>)
    requires i < |rows|
    ensures var row := rows[i];
      && ReactionsFor(rows[..i + 1], approved, pending)
         == ReactionsFor(rows[..i], approved, pending)
            + (if Resolved(row, approved, pending) then [ReactionInfo(row.userId, row.messageId, CheckMark)] else [])
      && ResolvedIds(rows[..i + 1], approved, pending)
         == ResolvedIds(rows[..i], approved, pending) + (if Resolved(row, approved, pending) then {row.submissionId} else {})
  {
    assert rows[..i + 1] == rows[..i] + [rows[i]];
    AppendUnfolds(rows[..i], rows[i], approved, pending);
  }

  /** The resolved ids are exactly the ids of the resolved rows. */
  lemma {:induction false} ResolvedIdsAre(rows: seq<Submission>, approved: set<Option<string>>, pending: set<Option<string>>)
    ensures forall x :: x in rows && Resolved(x, approved, pending) ==> x.submissionId in ResolvedIds(rows, approved, pending)
    ensures forall id :: id in ResolvedIds(rows, approved, pending) ==>
              exists x :: x in rows && x.submissionId == id && Resolved(x, approved, pending)
  {
    if rows != [] {
      var init := rows[..|rows| - 1];
      var last := rows[|rows| - 1];
      assert rows == init + [last];
      ResolvedIdsAre(init, approved, pending);
      AppendUnfolds(init, last, approved, pending);
    }
  }

  /** The kept rows are exactly the rows that are not resolved. */
  lemma {:induction false} KeptRowsAre(rows: seq<Submission>, approved: set<Option<string>>, pending: set<Option<string>>)
    ensures forall x :: x in KeptRows(rows, approved, pending) <==> x in rows && !Resolved(x, approved, pending)
  {
    if rows != [] {
      var init := rows[..|rows| - 1];
      var last := rows[|rows| - 1];
      assert rows == init + [last];
      KeptRowsAre(init, approved, pending);
      AppendUnfolds(init, last, approved, pending);
    }
  }

  /** Exactly one reaction per resolved row: reactions and kept rows share out
      the rows read. */
  lemma {:induction false} ReactionsPartition(rows: seq<Submission>, approved: set<Option<string>>, pending: set<Option<string>>)
    ensures |ReactionsFor(rows, approved, pending)| + |KeptRows(rows, approved, pending)| == |rows|
  {
    if rows != [] {
      var init := rows[..|rows| - 1];
      assert rows == init + [rows[|rows| - 1]];
      ReactionsPartition(init, approved, pending);
      AppendUnfolds(init, rows[|rows| - 1], approved, pending);
    }
  }

  /** The ids of rows after the first `k` are larger than every id among them. */
  lemma LaterRowsNotResolved(rows: seq<Submission>, k: nat, approved: set<Option<string>>, pending: set<Option<string>>)
    requires IncreasingIds(rows) && k <= |rows|
    ensures forall x :: x in rows[k..] ==> x.submissionId !in ResolvedIds(rows[..k], approved, pending)
  {
    ResolvedIdsAre(rows[..k], approved, pending);
    forall x, y | x in rows[k..] && y in rows[..k] ensures y.submissionId < x.submissionId {
      var j :| 0 <= j < |rows| - k && rows[k..][j] == x;
      var i :| 0 <= i < k && rows[..k][i] == y;
      assert rows[i] == y && rows[k + j] == x;
    }
  }

  /** The last row's id is not among the resolved ids of the rows before it. */
  lemma LastNotResolvedBefore(rows: seq<Submission>, approved: set<Option<string>>, pending: set<Option<string>>)
    requires IncreasingIds(rows) && rows != []
    ensures rows[|rows| - 1].submissionId !in ResolvedIds(rows[..|rows| - 1], approved, pending)
  {
    LaterRowsNotResolved(rows, |rows| - 1, approved, pending);
    assert rows[|rows| - 1] in rows[|rows| - 1..];
  }

  /** Deleting the resolved rows of a whole table leaves exactly the kept rows,
      in order. */
  lemma {:induction false} DeleteResolvedLeavesKept(rows: seq<Submission>, approved: set<Option<string>>, pending: set<Option<string>>)
    requires IncreasingIds(rows)
    ensures WithoutIds(rows, ResolvedIds(rows, approved, pending)) == KeptRows(rows, approved, pending)
  {
    if rows != [] {
      var init := rows[..|rows| - 1];
      var last := rows[|rows| - 1];
      assert rows == init + [last];
      var ids := ResolvedIds(init, approved, pending);
      DeleteResolvedLeavesKept(init, approved, pending);
      AppendUnfolds(init, last, approved, pending);
      if Resolved(last, approved, pending) {
        InitBelowLast(rows);
        WithoutIdsIgnoresAbsent(init, ids, last.submissionId);
        WithoutIdsAppend(init, last, ids + {last.submissionId});
      } else {
        LastNotResolvedBefore(rows, approved, pending);
        WithoutIdsAppend(init, last, ids);
        assert ResolvedIds(rows, approved, pending) == ids;
        assert WithoutIds(rows, ids) == WithoutIds(init, ids) + [last];
        assert KeptRows(rows, approved, pending) == KeptRows(init, approved, pending) + [last];
      }
    }
  }

  /** When the read stops after `k` rows (an SQL error), the resolved rows among
      them are deleted and every later row stays untouched. */
  lemma DeleteResolvedOfPrefix(rows: seq<Submission>, k: nat, approved: set<Option<string>>, pending: set<Option<string>>)
    requires IncreasingIds(rows) && k <= |rows|
    ensures WithoutIds(rows, ResolvedIds(rows[..k], approved, pending))
         == KeptRows(rows[..k], approved, pending) + rows[k..]
  {
    var ids := ResolvedIds(rows[..k], approved, pending);
    assert rows == rows[..k] + rows[k..];
    WithoutIdsConcat(rows[..k], rows[k..], ids);
    assert IncreasingIds(rows[..k]);
    DeleteResolvedLeavesKept(rows[..k], approved, pending);
    LaterRowsNotResolved(rows, k, approved, pending);
    NoRowWithId(rows[k..], ids);
  }

  /** A row whose track is in both playlists counts as approved. */
  lemma ApprovedWins(row: Submission, approved: set<Option<string>>, pending: set<Option<string>>)
    requires Some(row.trackId) in approved
    ensures Resolved(row, approved, pending)
    ensures KeptRows([row], approved, pending) == []
    ensures ReactionsFor([row], approved, pending) == [ReactionInfo(row.userId, row.messageId, CheckMark)]
  {
    assert [row][..0] == [];
  }

  /** A row still in the submissions playlist and not approved is kept, with no
      reaction. */
  lemma PendingIsKept(row: Submission, approved: set<Option<string>>, pending: set<Option<string>>)
    requires Some(row.trackId) !in approved && Some(row.trackId) in pending
    ensures KeptRows([row], approved, pending) == [row]
    ensures ReactionsFor([row], approved, pending) == []
  {
    assert [row][..0] == [];
  }
}
