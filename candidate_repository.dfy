/** The candidate repository: the row decoding and the one-statement batch insert. */
module CandidateRepository {
  import opened Wrappers
  import opened Kernel
  import opened Schema

  const DatabaseRejected: string := "database error"

  /** A stored row as a `Candidate`: a stored `is_winner` integer means "winner" unless it is 0. */
  function Decode(row: CandidateRow): (c: Candidate)
    ensures c.id == row.id && c.name == row.name && c.matchId == row.matchId
    ensures c.isWinner.None? <==> row.isWinner.None?
    ensures row.isWinner.Some? ==> (c.isWinner.value <==> row.isWinner.value != 0)
  {
    Candidate(row.id, row.name, row.matchId, match row.isWinner case None => None case Some(v) => Some(v != 0))
  }

  /** The rows `bulk_insert` builds, one per new candidate and in order, none marked as winner. */
  function Rows(cs: seq<NewCandidate>): (rows: seq<CandidateRow>)
    ensures |rows| == |cs|
    ensures forall i :: 0 <= i < |cs| ==> rows[i] == CandidateRow(cs[i].id, cs[i].name, cs[i].matchId, None)
  {
    seq(|cs|, i requires 0 <= i < |cs| => CandidateRow(cs[i].id, cs[i].name, cs[i].matchId, None))
  }

  predicate ClashesWithAny(stored: seq<CandidateRow>, row: CandidateRow) {
    exists i :: 0 <= i < |stored| && CandidateClash(stored[i], row)
  }

  /**
   * How the database answers one multi-row INSERT, row by row: the first row that clashes with a
   * stored or earlier row on a unique key gives `DuplicatedRecord`, the first row naming a missing
   * match gives `UnexpectedError`.
   */
  function BatchError(ms: seq<Match>, stored: seq<CandidateRow>, rows: seq<CandidateRow>): (r: Option<RepositoryError>)
    ensures r.None? ==> forall k :: 0 <= k < |rows| ==> rows[k].matchId in MatchIds(ms)
    ensures r.Some? ==> r.value == DuplicatedRecord(DatabaseRejected) || r.value == UnexpectedError(DatabaseRejected)
    decreases |rows|
  {
    if |rows| == 0 then None
    else if ClashesWithAny(stored, rows[0]) then Some(DuplicatedRecord(DatabaseRejected))
    else if rows[0].matchId !in MatchIds(ms) then Some(UnexpectedError(DatabaseRejected))
    else
      var r := BatchError(ms, stored + [rows[0]], rows[1..]);
      assert forall k :: 1 <= k < |rows| ==> rows[k] == rows[1..][k - 1];
      r
  }

  /** `bulk_insert`: an empty list does nothing; otherwise all rows are stored or none is. */
  function BulkInsert(t: Tables, cs: seq<NewCandidate>): (r: Txn<()>)
    ensures |cs| == 0 ==> r == Txn(Ok(()), t)
    ensures r.result.Err? ==> r.tables == t
    ensures r.result.Ok? ==> r.tables == t.(candidates := t.candidates + Rows(cs))
    ensures r.result.Err? ==> r.result.error.DuplicatedRecord? || r.result.error.UnexpectedError?
  {
    if |cs| == 0 then Txn(Ok(()), t)
    else match BatchError(t.matches, t.candidates, Rows(cs))
      case Some(e) => Txn(Err(e), t)
      case None => Txn(Ok(()), t.(candidates := t.candidates + Rows(cs)))
  }

  /** Starting from rows with distinct keys, the batch goes through exactly when keys stay distinct and every match exists. */
  lemma {:induction false} BatchErrorNone(ms: seq<Match>, stored: seq<CandidateRow>, rows: seq<CandidateRow>)
    requires CandidateKeys(stored)
    ensures BatchError(ms, stored, rows).None? <==>
      CandidateKeys(stored + rows) && forall k :: 0 <= k < |rows| ==> rows[k].matchId in MatchIds(ms)
    decreases |rows|
  {
    if |rows| > 0 {
      var s' := stored + [rows[0]];
      assert stored + rows == s' + rows[1..];
      if ClashesWithAny(stored, rows[0]) {
        var i :| 0 <= i < |stored| && CandidateClash(stored[i], rows[0]);
        assert (stored + rows)[i] == stored[i] && (stored + rows)[|stored|] == rows[0];
      } else if rows[0].matchId in MatchIds(ms) {
        assert CandidateKeys(s') by {
          forall i, j | 0 <= i < j < |s'| ensures !CandidateClash(s'[i], s'[j]) {
            if j == |stored| {
              assert s'[i] == stored[i];
            } else {
              assert s'[i] == stored[i] && s'[j] == stored[j];
            }
          }
        }
        BatchErrorNone(ms, s', rows[1..]);
        assert forall k :: 1 <= k < |rows| ==> rows[k] == rows[1..][k - 1];
      }
    }
  }

  /** When every named match exists, a failure is `DuplicatedRecord`, and happens exactly on a key clash. */
  lemma DuplicateExactly(t: Tables, cs: seq<NewCandidate>)
    requires CandidateKeys(t.candidates)
    requires forall i :: 0 <= i < |cs| ==> cs[i].matchId in MatchIds(t.matches)
    ensures BulkInsert(t, cs).result.Err? <==> !CandidateKeys(t.candidates + Rows(cs))
    ensures BulkInsert(t, cs).result.Err? ==> BulkInsert(t, cs).result.error.DuplicatedRecord?
  {
    if |cs| > 0 {
      BatchErrorNone(t.matches, t.candidates, Rows(cs));
      DuplicateFirst(t.matches, t.candidates, Rows(cs));
    } else {
      assert t.candidates + Rows(cs) == t.candidates;
    }
  }

  lemma {:induction false} DuplicateFirst(ms: seq<Match>, stored: seq<CandidateRow>, rows: seq<CandidateRow>)
    requires forall k :: 0 <= k < |rows| ==> rows[k].matchId in MatchIds(ms)
    ensures BatchError(ms, stored, rows).Some? ==> BatchError(ms, stored, rows).value.DuplicatedRecord?
    decreases |rows|
  {
    if |rows| > 0 && !ClashesWithAny(stored, rows[0]) {
      assert forall k :: 1 <= k < |rows| ==> rows[k] == rows[1..][k - 1];
      DuplicateFirst(ms, stored + [rows[0]], rows[1..]);
    }
  }

  lemma BulkInsertPreservesValid(t: Tables, cs: seq<NewCandidate>)
    requires Valid(t)
    ensures Valid(BulkInsert(t, cs).tables)
  {
    var r := BulkInsert(t, cs);
    if r.result.Ok? && |cs| > 0 {
      var rows := Rows(cs);
      BatchErrorNone(t.matches, t.candidates, rows);
      CandidateIdsAppend(t.candidates, rows);
      var all := t.candidates + rows;
      forall i | 0 <= i < |all| ensures all[i].matchId in MatchIds(t.matches) {
        if i >= |t.candidates| { assert all[i] == rows[i - |t.candidates|]; }
      }
    }
  }

  /** Two new candidates of one match with the same name: the whole batch is refused. */
  lemma DuplicateNamesInBatch(t: Tables, a: NewCandidate, b: NewCandidate)
    requires CandidateKeys(t.candidates)
    requires a.matchId == b.matchId && a.name == b.name
    requires a.matchId in MatchIds(t.matches)
    ensures BulkInsert(t, [a, b]) == Txn(Err(DuplicatedRecord(DatabaseRejected)), t)
  {
    var rows := Rows([a, b]);
    var all := t.candidates + rows;
    assert all[|t.candidates|] == rows[0] && all[|t.candidates| + 1] == rows[1];
    assert !CandidateKeys(all);
    DuplicateExactly(t, [a, b]);
  }

  /** `select_by_match_id`: the candidates of a match, decoded, in table order. */
  function SelectByMatchId(t: Tables, matchId: Id): (r: seq<Candidate>)
    ensures forall c :: c in r <==> exists i :: 0 <= i < |t.candidates| && t.candidates[i].matchId == matchId && c == Decode(t.candidates[i])
  {
    Select(t.candidates, matchId)
  }

  function Select(rows: seq<CandidateRow>, matchId: Id): (r: seq<Candidate>)
    ensures forall c :: c in r <==> exists i :: 0 <= i < |rows| && rows[i].matchId == matchId && c == Decode(rows[i])
    decreases |rows|
  {
    if |rows| == 0 then []
    else
      var n := |rows| - 1;
      var r := Select(rows[..n], matchId) + (if rows[n].matchId == matchId then [Decode(rows[n])] else []);
      assert forall i :: 0 <= i < n ==> rows[..n][i] == rows[i];
      r
  }
}
