/**
 * The bet repository: three lookups (match, candidate, user) and one row insert, in one
 * transaction, so any error leaves the tables as they were.
 */
module BetRepository {
  import opened Wrappers
  import opened Kernel
  import opened Schema

  const MatchNotFound: string := "Match not found"
  const CandidateNotFound: string := "Candidate not found"
  const UserNotFound: string := "User not found"
  const DatabaseRejected: string := "database error"

  /** What the three lookups resolve. */
  datatype Target = Target(m: Match, candidate: CandidateRow, user: User)

  /**
   * The lookups in the source's order: the newest match the filter selects, then its candidate
   * of the given name, then the user by (traq_id, channel_id); the first miss decides the error.
   */
  function Resolve(t: Tables, b: NewBetForLatestMatch, f: MatchFilter): (r: Result<Target, RepositoryError>)
    ensures r == Err(RecordNotFound(MatchNotFound)) <==> Latest(t.matches, f).None?
    ensures r == Err(RecordNotFound(CandidateNotFound)) <==> (Latest(t.matches, f).Some?
      && FindCandidate(t.candidates, t.matches[Latest(t.matches, f).value].id, b.candidateName).None?)
    ensures r == Err(RecordNotFound(UserNotFound)) <==> (Latest(t.matches, f).Some?
      && FindCandidate(t.candidates, t.matches[Latest(t.matches, f).value].id, b.candidateName).Some?
      && FindUser(t.users, b.traqId, b.channelId).None?)
    ensures r.Ok? ==> (r.value.m == t.matches[Latest(t.matches, f).value]
      && r.value.candidate in t.candidates && r.value.candidate.matchId == r.value.m.id
      && r.value.candidate.name == b.candidateName
      && r.value.user in t.users && r.value.user.traqId == b.traqId && r.value.user.channelId == b.channelId)
  {
    match Latest(t.matches, f)
    case None => Err(RecordNotFound(MatchNotFound))
    case Some(i) =>
      match FindCandidate(t.candidates, t.matches[i].id, b.candidateName)
      case None => Err(RecordNotFound(CandidateNotFound))
      case Some(j) =>
        match FindUser(t.users, b.traqId, b.channelId)
        case None => Err(RecordNotFound(UserNotFound))
        case Some(k) => Ok(Target(t.matches[i], t.candidates[j], t.users[k]))
  }

  /** The row built from the request and the resolved ids. */
  function Row(b: NewBetForLatestMatch, target: Target): Bet {
    Bet(b.id, target.user.id, target.m.id, target.candidate.id, b.amount)
  }

  predicate ClashesWithAny(bs: seq<Bet>, row: Bet) {
    exists i :: 0 <= i < |bs| && BetClash(bs[i], row)
  }

  /**
   * `insert_for_latest_match` as intended: the target is the newest open match of the request's
   * channel; a clash on the primary key or on (match_id, user_id) is `DuplicatedRecord`.
   */
  function InsertForLatestMatch(t: Tables, b: NewBetForLatestMatch): (r: Txn<Bet>)
    ensures r.result.Err? ==> r.tables == t
    ensures r.result.Ok? ==> r.tables == t.(bets := t.bets + [r.result.value])
    ensures r.result.Ok? ==> Resolve(t, b, OpenInChannel(b.channelId)).Ok?
    ensures r.result.Ok? ==> var target := Resolve(t, b, OpenInChannel(b.channelId)).value;
      r.result.value == Bet(b.id, target.user.id, target.m.id, target.candidate.id, b.amount)
      && r.result.value.matchId == target.m.id && target.m.channelId == b.channelId
      && target.m.closedAt.None? && target.m.winnerCandidateId.None?
    ensures Resolve(t, b, OpenInChannel(b.channelId)).Err? ==> r.result == Err(Resolve(t, b, OpenInChannel(b.channelId)).error)
    ensures r.result == Err(DuplicatedRecord(DatabaseRejected)) <==>
      Resolve(t, b, OpenInChannel(b.channelId)).Ok? && ClashesWithAny(t.bets, Row(b, Resolve(t, b, OpenInChannel(b.channelId)).value))
    ensures Resolve(t, b, OpenInChannel(b.channelId)).Ok?
      && !ClashesWithAny(t.bets, Row(b, Resolve(t, b, OpenInChannel(b.channelId)).value))
      ==> r.result == Ok(Row(b, Resolve(t, b, OpenInChannel(b.channelId)).value))
  {
    match Resolve(t, b, OpenInChannel(b.channelId))
    case Err(e) => Txn(Err(e), t)
    case Ok(target) =>
      var row := Row(b, target);
      if ClashesWithAny(t.bets, row) then Txn(Err(DuplicatedRecord(DatabaseRejected)), t)
      else Txn(Ok(row), t.(bets := t.bets + [row]))
  }

  /** `.one()` on a query by id: the first bet with that id. */
  function FindBet(bs: seq<Bet>, id: Id): (r: Option<nat>)
    ensures r.Some? ==> r.value < |bs| && bs[r.value].id == id
    ensures r.None? ==> id !in BetIds(bs)
    decreases |bs|
  {
    if |bs| == 0 then None
    else if bs[0].id == id then Some(0)
    else
      var r := FindBet(bs[1..], id);
      if r.None? then None else Some(r.value + 1)
  }

  /** `save` on a model whose columns are all `Unchanged`: a no-op UPDATE, then a read back by id. */
  function SaveUnchangedBet(t: Tables, row: Bet): (r: Txn<Bet>)
    ensures r.tables == t
    ensures r.result.Ok? ==> row.id in BetIds(t.bets) && r.result.value.id == row.id
  {
    match FindBet(t.bets, row.id)
    case None => Txn(Err(UnexpectedError(DatabaseRejected)), t)
    case Some(i) => Txn(Ok(t.bets[i]), t)
  }

  /** `insert_for_latest_match` as written: no channel filter on the match, and `save` updates. */
  function InsertForLatestMatchAsWritten(t: Tables, b: NewBetForLatestMatch): (r: Txn<Bet>)
    ensures r.tables == t
    ensures Resolve(t, b, Open).Err? ==> r.result == Err(Resolve(t, b, Open).error)
  {
    match Resolve(t, b, Open)
    case Err(e) => Txn(Err(e), t)
    case Ok(target) => SaveUnchangedBet(t, Row(b, target))
  }

  /** As written, a bet with a fresh id is never stored. */
  lemma AsWrittenNeverStores(t: Tables, b: NewBetForLatestMatch)
    requires b.id !in BetIds(t.bets)
    ensures InsertForLatestMatchAsWritten(t, b).result.Err?
  {
  }

  /**
   * As written, the target match ignores the channel: with an open match in channel "B" newer than
   * the one in channel "A", a bet placed in "A" resolves to the match of "B".
   */
  lemma AsWrittenTargetsOtherChannel()
    ensures var t := Tables(
        [Match("m1", "A's match", "A", None, 1, None, None), Match("m2", "B's match", "B", None, 2, None, None)],
        [CandidateRow("c1", "x", "m1", None), CandidateRow("c2", "x", "m2", None)],
        [],
        [User("u1", "alice", "alice", "A", 10000)]);
      var b := NewBetForLatestMatch("b1", "alice", "A", "x", 100);
      Resolve(t, b, Open) == Ok(Target(t.matches[1], t.candidates[1], t.users[0]))
      && Resolve(t, b, OpenInChannel("A")) == Ok(Target(t.matches[0], t.candidates[0], t.users[0]))
  {
    var t := Tables(
        [Match("m1", "A's match", "A", None, 1, None, None), Match("m2", "B's match", "B", None, 2, None, None)],
        [CandidateRow("c1", "x", "m1", None), CandidateRow("c2", "x", "m2", None)],
        [],
        [User("u1", "alice", "alice", "A", 10000)]);
    assert t.matches[..1][..0] == [];
    assert Latest(t.matches[..1], Open) == Some(0);
    assert Latest(t.matches, Open) == Some(1);
    assert Latest(t.matches[..1], OpenInChannel("A")) == Some(0);
    assert Latest(t.matches, OpenInChannel("A")) == Some(0);
    assert FindCandidate(t.candidates, "m2", "x") == Some(1) by {
      assert t.candidates[1..][0].matchId == "m2";
    }
    assert FindCandidate(t.candidates, "m1", "x") == Some(0);
  }

  /** A second bet by the same user on the same match is refused. */
  lemma SecondBetRefused(t: Tables, b: NewBetForLatestMatch, b': NewBetForLatestMatch)
    requires InsertForLatestMatch(t, b).result.Ok?
    requires b'.traqId == b.traqId && b'.channelId == b.channelId && b'.candidateName == b.candidateName
    ensures InsertForLatestMatch(InsertForLatestMatch(t, b).tables, b').result == Err(DuplicatedRecord(DatabaseRejected))
  {
    var t1 := InsertForLatestMatch(t, b).tables;
    var row := InsertForLatestMatch(t, b).result.value;
    assert t1.matches == t.matches && t1.candidates == t.candidates && t1.users == t.users;
    var target := Resolve(t, b, OpenInChannel(b.channelId)).value;
    assert Resolve(t1, b', OpenInChannel(b'.channelId)) == Resolve(t, b', OpenInChannel(b.channelId));
    assert Resolve(t, b', OpenInChannel(b.channelId)) == Ok(target);
    assert t1.bets[|t.bets|] == row;
    assert BetClash(t1.bets[|t.bets|], Row(b', target));
  }

  lemma InsertPreservesValid(t: Tables, b: NewBetForLatestMatch)
    requires Valid(t)
    ensures Valid(InsertForLatestMatch(t, b).tables)
  {
    var r := InsertForLatestMatch(t, b);
    if r.result.Ok? {
      var target := Resolve(t, b, OpenInChannel(b.channelId)).value;
      var row := r.result.value;
      var bs := r.tables.bets;
      forall i, j | 0 <= i < j < |bs| ensures !BetClash(bs[i], bs[j]) {
        if j == |t.bets| {
          assert bs[i] == t.bets[i];
        } else {
          assert bs[i] == t.bets[i] && bs[j] == t.bets[j];
        }
      }
      var mi := Latest(t.matches, OpenInChannel(b.channelId)).value;
      assert row.matchId in MatchIds(t.matches) by { assert t.matches[mi].id == row.matchId; }
      assert row.userId in UserIds(t.users) by {
        var k :| 0 <= k < |t.users| && t.users[k] == target.user;
      }
      assert row.candidateId in CandidateIds(t.candidates) by {
        var k :| 0 <= k < |t.candidates| && t.candidates[k] == target.candidate;
      }
      forall i | 0 <= i < |bs| ensures bs[i].matchId in MatchIds(t.matches) && bs[i].userId in UserIds(t.users)
        && bs[i].candidateId in CandidateIds(t.candidates)
      {
        if i < |t.bets| { assert bs[i] == t.bets[i]; }
      }
    }
  }

  /** Every bet names a candidate of its own match. */
  predicate BetsOnOwnCandidates(t: Tables) {
    forall i :: 0 <= i < |t.bets| ==>
      exists j :: 0 <= j < |t.candidates| && t.candidates[j].id == t.bets[i].candidateId && t.candidates[j].matchId == t.bets[i].matchId
  }

  lemma InsertKeepsBetsOnOwnCandidates(t: Tables, b: NewBetForLatestMatch)
    requires BetsOnOwnCandidates(t)
    ensures BetsOnOwnCandidates(InsertForLatestMatch(t, b).tables)
  {
    var r := InsertForLatestMatch(t, b);
    if r.result.Ok? {
      var target := Resolve(t, b, OpenInChannel(b.channelId)).value;
      var bs := r.tables.bets;
      forall i | 0 <= i < |bs| ensures exists j :: 0 <= j < |t.candidates| && t.candidates[j].id == bs[i].candidateId && t.candidates[j].matchId == bs[i].matchId {
        if i < |t.bets| {
          assert bs[i] == t.bets[i];
        } else {
          var k :| 0 <= k < |t.candidates| && t.candidates[k] == target.candidate;
          assert t.candidates[k].id == bs[i].candidateId && t.candidates[k].matchId == bs[i].matchId;
        }
      }
    }
  }

  /** `select_by_match_id`: the bets on a match, in table order. */
  function SelectByMatchId(t: Tables, matchId: Id): (r: seq<Bet>)
    ensures forall b :: b in r <==> b in t.bets && b.matchId == matchId
  {
    Select(t.bets, matchId)
  }

  function Select(bs: seq<Bet>, matchId: Id): (r: seq<Bet>)
    ensures forall b :: b in r <==> b in bs && b.matchId == matchId
    decreases |bs|
  {
    if |bs| == 0 then []
    else Select(bs[..|bs| - 1], matchId) + (if bs[|bs| - 1].matchId == matchId then [bs[|bs| - 1]] else [])
  }
}
