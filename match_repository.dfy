/**
 * The match repository: each operation as a transition of the tables. Every operation that
 * fails leaves the tables as they were (the transaction rolls back, or nothing was written).
 */
module MatchRepository {
  import opened Wrappers
  import opened Kernel
  import opened Schema

  const AlreadyExists: string := "Match with the same channel_id already exists"
  const MatchNotFound: string := "Match not found"
  const ChannelMatchNotFound: string := "Match with the same channel_id not found"
  const AlreadyClosed: string := "Match is already closed"
  const WinnerAlreadySet: string := "Winner candidate is already set"
  const CandidateNotFound: string := "Candidate not found"
  /** Stands for the database's own error text, which the model does not reproduce. */
  const DatabaseRejected: string := "database error"

  /** The row `insert` builds: no message, not closed, no winner. */
  function Row(m: NewMatch): Match {
    Match(m.id, m.title, m.channelId, None, m.createdAt, None, None)
  }

  /** Does the channel hold a match without a winner? */
  predicate HasUndecided(ms: seq<Match>, channelId: Id) {
    exists i :: 0 <= i < |ms| && Selects(UndecidedInChannel(channelId), ms[i])
  }

  // ---------------------------------------------------------------------------------------------
  // insert

  /**
   * `insert` as intended: refuse while the channel has an undecided match, otherwise store the new
   * row. A clash on the primary key is a database error.
   */
  function Insert(t: Tables, m: NewMatch): (r: Txn<Match>)
    ensures r.result.Err? ==> r.tables == t
    ensures r.result == Err(DuplicatedRecord(AlreadyExists)) <==> HasUndecided(t.matches, m.channelId)
    ensures r.result.Ok? <==> !HasUndecided(t.matches, m.channelId) && m.id !in MatchIds(t.matches)
    ensures !HasUndecided(t.matches, m.channelId) && m.id in MatchIds(t.matches) ==> r.result == Err(UnexpectedError(DatabaseRejected))
    ensures r.result.Ok? ==>
      r.result.value == Match(m.id, m.title, m.channelId, None, m.createdAt, None, None)
      && r.tables == t.(matches := t.matches + [r.result.value])
  {
    if HasUndecided(t.matches, m.channelId) then Txn(Err(DuplicatedRecord(AlreadyExists)), t)
    else if m.id in MatchIds(t.matches) then Txn(Err(UnexpectedError(DatabaseRejected)), t)
    else Txn(Ok(Row(m)), t.(matches := t.matches + [Row(m)]))
  }

  /**
   * `save` on a model whose columns are all `Unchanged`, as the source calls it: the primary key
   * is not `NotSet`, so sea-orm issues an UPDATE, which writes no column and then reads the row back
   * by id. With a fresh id there is no such row and the call fails; nothing is ever stored.
   */
  function SaveUnchangedMatch(t: Tables, row: Match): (r: Txn<Match>)
    ensures r.tables == t
    ensures r.result.Ok? ==> row.id in MatchIds(t.matches) && r.result.value.id == row.id
  {
    match FindMatch(t.matches, row.id)
    case None => Txn(Err(UnexpectedError(DatabaseRejected)), t)
    case Some(i) => Txn(Ok(t.matches[i]), t)
  }

  /** `insert` as written: the duplicate check, then `into_active_model().save()`. */
  function InsertAsWritten(t: Tables, m: NewMatch): (r: Txn<Match>)
    ensures r.tables == t
    ensures r.result == Err(DuplicatedRecord(AlreadyExists)) <==> HasUndecided(t.matches, m.channelId)
  {
    if HasUndecided(t.matches, m.channelId) then Txn(Err(DuplicatedRecord(AlreadyExists)), t)
    else SaveUnchangedMatch(t, Row(m))
  }

  /** As written, inserting a match with a fresh id never succeeds and never changes the tables. */
  lemma InsertAsWrittenNeverStores(t: Tables, m: NewMatch)
    requires m.id !in MatchIds(t.matches)
    ensures InsertAsWritten(t, m).result.Err?
    ensures InsertAsWritten(t, m).tables == t
  {
  }

  lemma InsertPreservesValid(t: Tables, m: NewMatch)
    requires Valid(t)
    ensures Valid(Insert(t, m).tables)
  {
    var r := Insert(t, m);
    if r.result.Ok? {
      MatchIdsSnoc(t.matches, Row(m));
      var ms := r.tables.matches;
      forall i, j | 0 <= i < j < |ms| ensures ms[i].id != ms[j].id {
        if j == |t.matches| {
          assert t.matches[i].id in MatchIds(t.matches);
        } else {
          assert ms[i] == t.matches[i] && ms[j] == t.matches[j];
        }
      }
    }
  }

  // ---------------------------------------------------------------------------------------------
  // update

  /**
   * `update`: load the match by id (`RecordNotFound` when there is none); `Some(v)` writes
   * `message_id := v`, `None` writes nothing; the row as stored afterwards is returned.
   */
  function Update(t: Tables, u: UpdateMatch): (r: Txn<Match>)
    ensures r.result.Err? <==> u.id !in MatchIds(t.matches)
    ensures r.result.Err? ==> r.result == Err(RecordNotFound(MatchNotFound)) && r.tables == t
    ensures r.result.Ok? ==> exists i :: (0 <= i < |t.matches| && t.matches[i].id == u.id
      && r.result.value == t.matches[i].(messageId := if u.messageId.Some? then u.messageId.value else t.matches[i].messageId)
      && r.tables == t.(matches := t.matches[i := r.result.value]))
    ensures u.messageId.None? ==> r.tables == t
  {
    match FindMatch(t.matches, u.id)
    case None => Txn(Err(RecordNotFound(MatchNotFound)), t)
    case Some(i) =>
      var stored := t.matches[i];
      var model := IntoActiveModel(stored);
      var model := if u.messageId.Some? then model.(messageId := Set(u.messageId.value)) else model;
      var row := Updated(stored, model);
      assert u.messageId.None? ==> t.matches[i := row] == t.matches;
      Txn(Ok(row), t.(matches := t.matches[i := row]))
  }

  lemma UpdatePreservesValid(t: Tables, u: UpdateMatch)
    requires Valid(t)
    ensures Valid(Update(t, u).tables)
  {
    var r := Update(t, u);
    if r.result.Ok? {
      var i :| 0 <= i < |t.matches| && t.matches[i].id == u.id
        && r.tables == t.(matches := t.matches[i := r.result.value]);
      MatchIdsSameKeys(t.matches, r.tables.matches);
    }
  }

  // ---------------------------------------------------------------------------------------------
  // update_for_latest

  /**
   * `update_for_latest`, with the guards as written: they ask `is_set()` of a model fresh from
   * `into_active_model()`. A winner given by name is looked up and then answered with
   * `DuplicatedRecord` (the transaction rolls back); `Some(None)` clears the winner.
   */
  function UpdateForLatest(t: Tables, u: UpdateMatchForLatest): (r: Txn<Match>)
    ensures r.result.Err? ==> r.tables == t
    ensures r.result != Err(DuplicatedRecord(AlreadyClosed))
    ensures r.result == Err(RecordNotFound(ChannelMatchNotFound)) <==> forall j :: 0 <= j < |t.matches| ==> t.matches[j].channelId != u.channelId
    ensures u.winnerCandidateName.Some? && u.winnerCandidateName.value.Some? ==> r.result.Err?
    ensures r.result.Ok? ==> Latest(t.matches, InChannel(u.channelId)).Some?
    ensures ((exists j :: 0 <= j < |t.matches| && t.matches[j].channelId == u.channelId)
             && !(u.winnerCandidateName.Some? && u.winnerCandidateName.value.Some?)) ==> r.result.Ok?
    ensures r.result.Ok? ==>
      var i := Latest(t.matches, InChannel(u.channelId)).value;
      var m := t.matches[i];
      r.result.value == m.(closedAt := if u.closedAt.Some? then u.closedAt.value else m.closedAt,
                           winnerCandidateId := if u.winnerCandidateName.Some? then None else m.winnerCandidateId)
      && r.tables == t.(matches := t.matches[i := r.result.value])
  {
    match Latest(t.matches, InChannel(u.channelId))
    case None => Txn(Err(RecordNotFound(ChannelMatchNotFound)), t)
    case Some(i) =>
      var stored := t.matches[i];
      var model := IntoActiveModel(stored);
      if u.closedAt.Some? && model.closedAt.IsSet() then Txn(Err(DuplicatedRecord(AlreadyClosed)), t)
      else
        var model := if u.closedAt.Some? then model.(closedAt := Set(u.closedAt.value)) else model;
        if u.winnerCandidateName.Some? && model.winnerCandidateId.IsSet() then
          Txn(Err(DuplicatedRecord(WinnerAlreadySet)), t)
        else if u.winnerCandidateName.Some? && u.winnerCandidateName.value.Some? then
          match FindCandidate(t.candidates, stored.id, u.winnerCandidateName.value.value)
          case None => Txn(Err(RecordNotFound(CandidateNotFound)), t)
          case Some(_) => Txn(Err(DuplicatedRecord(WinnerAlreadySet)), t)
        else
          var model := if u.winnerCandidateName.Some? then model.(winnerCandidateId := Set(None)) else model;
          var row := Updated(stored, model);
          Txn(Ok(row), t.(matches := t.matches[i := row]))
  }

  /**
   * Winner by name: `RecordNotFound` when the newest match of the channel has no candidate of that
   * name, `DuplicatedRecord` when it has one.
   */
  lemma WinnerByName(t: Tables, u: UpdateMatchForLatest, name: string)
    requires u.winnerCandidateName == Some(Some(name))
    requires Latest(t.matches, InChannel(u.channelId)).Some?
    ensures var m := t.matches[Latest(t.matches, InChannel(u.channelId)).value];
      UpdateForLatest(t, u).result ==
        if FindCandidate(t.candidates, m.id, name).None? then Err(RecordNotFound(CandidateNotFound))
        else Err(DuplicatedRecord(WinnerAlreadySet))
  {
  }

  lemma UpdateForLatestPreservesValid(t: Tables, u: UpdateMatchForLatest)
    requires Valid(t)
    ensures Valid(UpdateForLatest(t, u).tables)
  {
    var r := UpdateForLatest(t, u);
    if r.result.Ok? {
      MatchIdsSameKeys(t.matches, r.tables.matches);
    }
  }

  // ---------------------------------------------------------------------------------------------
  // find, find_latest

  function Find(t: Tables, id: Id): (r: Option<Match>)
    ensures r.Some? <==> id in MatchIds(t.matches)
    ensures r.Some? ==> r.value in t.matches && r.value.id == id
  {
    match FindMatch(t.matches, id)
    case None => None
    case Some(i) => Some(t.matches[i])
  }

  function FindLatest(t: Tables, channelId: Id): (r: Option<Match>)
    ensures r.None? <==> forall j :: 0 <= j < |t.matches| ==> t.matches[j].channelId != channelId
    ensures r.Some? ==> (r.value in t.matches && r.value.channelId == channelId
      && forall j :: 0 <= j < |t.matches| && t.matches[j].channelId == channelId ==> t.matches[j].createdAt <= r.value.createdAt)
  {
    match Latest(t.matches, InChannel(channelId))
    case None => None
    case Some(i) => Some(t.matches[i])
  }

  // ---------------------------------------------------------------------------------------------
  // delete_latest

  /** The rows of `ms` that do not carry `id`, in order (a DELETE by primary key). */
  function Without(ms: seq<Match>, id: Id): (r: seq<Match>)
    ensures forall m :: m in r <==> m in ms && m.id != id
    ensures |r| <= |ms|
    decreases |ms|
  {
    if |ms| == 0 then []
    else if ms[0].id == id then Without(ms[1..], id)
    else [ms[0]] + Without(ms[1..], id)
  }

  lemma WithoutIds(ms: seq<Match>, id: Id)
    ensures MatchIds(Without(ms, id)) == MatchIds(ms) - {id}
  {
    var r := Without(ms, id);
    forall x | x in MatchIds(r) ensures x in MatchIds(ms) - {id} {
      var i :| 0 <= i < |r| && r[i].id == x;
      assert r[i] in ms;
      var k :| 0 <= k < |ms| && ms[k] == r[i];
    }
    forall x | x in MatchIds(ms) - {id} ensures x in MatchIds(r) {
      var k :| 0 <= k < |ms| && ms[k].id == x;
      assert ms[k] in r;
      var i :| 0 <= i < |r| && r[i] == ms[k];
    }
  }

  /** A row of `ms` with an id other than that of `ms[0]`, when the ids of `ms` are distinct. */
  lemma TailIdDiffers(ms: seq<Match>, m: Match)
    requires MatchKeys(ms) && |ms| > 0 && m in ms[1..]
    ensures m.id != ms[0].id
  {
    var k :| 0 <= k < |ms[1..]| && ms[1..][k] == m;
    assert ms[k + 1] == m;
  }

  lemma {:induction false} WithoutKeys(ms: seq<Match>, id: Id)
    requires MatchKeys(ms)
    ensures MatchKeys(Without(ms, id))
    decreases |ms|
  {
    if |ms| > 0 {
      var tail := ms[1..];
      assert MatchKeys(tail) by {
        forall i, j | 0 <= i < j < |tail| ensures tail[i].id != tail[j].id {
          assert tail[i] == ms[i + 1] && tail[j] == ms[j + 1];
        }
      }
      WithoutKeys(tail, id);
      if ms[0].id != id {
        var rest := Without(tail, id);
        var r := [ms[0]] + rest;
        assert Without(ms, id) == r;
        forall i, j | 0 <= i < j < |r| ensures r[i].id != r[j].id {
          if i == 0 {
            assert r[j] == rest[j - 1];
            TailIdDiffers(ms, r[j]);
          } else {
            assert r[i] == rest[i - 1] && r[j] == rest[j - 1];
          }
        }
      }
    }
  }

  /**
   * `delete_latest`: remove the newest match without a winner in the channel. The foreign keys do
   * not cascade, so the DELETE fails while a candidate or a bet references that match.
   */
  function DeleteLatest(t: Tables, channelId: Id): (r: Txn<()>)
    ensures r.result.Err? ==> r.tables == t
    ensures r.result == Err(RecordNotFound(ChannelMatchNotFound)) <==> !HasUndecided(t.matches, channelId)
    ensures r.result.Ok? ==> var m := t.matches[Latest(t.matches, UndecidedInChannel(channelId)).value];
      !MatchReferenced(t, m.id) && r.tables == t.(matches := Without(t.matches, m.id))
    ensures HasUndecided(t.matches, channelId)
      && MatchReferenced(t, t.matches[Latest(t.matches, UndecidedInChannel(channelId)).value].id)
      ==> r.result == Err(UnexpectedError(DatabaseRejected))
    ensures HasUndecided(t.matches, channelId)
      && !MatchReferenced(t, t.matches[Latest(t.matches, UndecidedInChannel(channelId)).value].id)
      ==> r.result.Ok?
  {
    match Latest(t.matches, UndecidedInChannel(channelId))
    case None => Txn(Err(RecordNotFound(ChannelMatchNotFound)), t)
    case Some(i) =>
      var id := t.matches[i].id;
      if MatchReferenced(t, id) then Txn(Err(UnexpectedError(DatabaseRejected)), t)
      else Txn(Ok(()), t.(matches := Without(t.matches, id)))
  }

  lemma DeleteLatestPreservesValid(t: Tables, channelId: Id)
    requires Valid(t)
    ensures Valid(DeleteLatest(t, channelId).tables)
  {
    var r := DeleteLatest(t, channelId);
    if r.result.Ok? {
      var id := t.matches[Latest(t.matches, UndecidedInChannel(channelId)).value].id;
      WithoutKeys(t.matches, id);
      WithoutIds(t.matches, id);
      forall i | 0 <= i < |t.candidates| ensures t.candidates[i].matchId != id {
        assert !(t.candidates[i].matchId == id);
      }
      forall i | 0 <= i < |t.bets| ensures t.bets[i].matchId != id {
        assert !(t.bets[i].matchId == id);
      }
    }
  }

  // ---------------------------------------------------------------------------------------------
  // No successful call records a winner, and what follows from it.

  predicate NoWinners(ms: seq<Match>) {
    forall i :: 0 <= i < |ms| ==> ms[i].winnerCandidateId.None?
  }

  /** Starting from tables without winners, no match operation ever records one. */
  lemma NoWinnersPreserved(t: Tables, m: NewMatch, u: UpdateMatch, v: UpdateMatchForLatest, channelId: Id)
    requires NoWinners(t.matches)
    ensures NoWinners(Insert(t, m).tables.matches)
    ensures NoWinners(Update(t, u).tables.matches)
    ensures NoWinners(UpdateForLatest(t, v).tables.matches)
    ensures NoWinners(DeleteLatest(t, channelId).tables.matches)
  {
    NoWinnersAfterUpdate(t, u);
    NoWinnersAfterDelete(t, channelId);
  }

  lemma NoWinnersAfterUpdate(t: Tables, u: UpdateMatch)
    requires NoWinners(t.matches)
    ensures NoWinners(Update(t, u).tables.matches)
  {
  }

  lemma NoWinnersAfterDelete(t: Tables, channelId: Id)
    requires NoWinners(t.matches)
    ensures NoWinners(DeleteLatest(t, channelId).tables.matches)
  {
    var d := DeleteLatest(t, channelId);
    if d.result.Ok? {
      var id := t.matches[Latest(t.matches, UndecidedInChannel(channelId)).value].id;
      var w := Without(t.matches, id);
      forall i | 0 <= i < |w| ensures w[i].winnerCandidateId.None? {
        assert w[i] in t.matches;
      }
    }
  }

  /**
   * Without winners every match stays undecided, so once a channel holds a match another one can
   * only be started after it is deleted, and it cannot be deleted while candidates refer to it.
   */
  lemma ChannelStaysTaken(t: Tables, m: NewMatch, i: nat)
    requires NoWinners(t.matches)
    requires i < |t.matches| && t.matches[i].channelId == m.channelId
    ensures Insert(t, m).result == Err(DuplicatedRecord(AlreadyExists))
    ensures DeleteLatest(t, m.channelId).result.Ok? ==> !MatchReferenced(t, t.matches[Latest(t.matches, UndecidedInChannel(m.channelId)).value].id)
  {
    assert Selects(UndecidedInChannel(m.channelId), t.matches[i]);
  }
}
