/**
 * The database as one object holding the four tables. Each method carries out one repository
 * call step by step and ends in the state the repository's transition function describes.
 */
module Store {
  import opened Wrappers
  import opened Kernel
  import opened Schema
  import MatchRepository
  import CandidateRepository
  import BetRepository
  import UserRepository

  class Database {
    var matches: seq<Match>
    var candidates: seq<CandidateRow>
    var bets: seq<Bet>
    var users: seq<User>

    function State(): Tables
      reads this
    {
      Tables(matches, candidates, bets, users)
    }

    /** The table constraints hold. */
    ghost predicate Valid()
      reads this
    {
      Schema.Valid(State())
    }

    constructor ()
      ensures State() == Empty && Valid()
    {
      matches, candidates, bets, users := [], [], [], [];
    }

    method InsertMatch(m: NewMatch) returns (r: Result<Match, RepositoryError>)
      requires Valid()
      modifies this
      ensures Valid()
      ensures Txn(r, State()) == MatchRepository.Insert(old(State()), m)
    {
      MatchRepository.InsertPreservesValid(State(), m);
      if MatchRepository.HasUndecided(matches, m.channelId) {
        return Err(DuplicatedRecord(MatchRepository.AlreadyExists));
      }
      var row := Match(m.id, m.title, m.channelId, None, m.createdAt, None, None);
      if row.id in MatchIds(matches) {
        return Err(UnexpectedError(MatchRepository.DatabaseRejected));
      }
      matches := matches + [row];
      r := Ok(row);
    }

    method UpdateMatch(u: UpdateMatch) returns (r: Result<Match, RepositoryError>)
      requires Valid()
      modifies this
      ensures Valid()
      ensures Txn(r, State()) == MatchRepository.Update(old(State()), u)
    {
      MatchRepository.UpdatePreservesValid(State(), u);
      var found := FindMatch(matches, u.id);
      if found.None? {
        return Err(RecordNotFound(MatchRepository.MatchNotFound));
      }
      var i := found.value;
      var model := IntoActiveModel(matches[i]);
      if u.messageId.Some? {
        model := model.(messageId := Set(u.messageId.value));
      }
      var row := Updated(matches[i], model);
      matches := matches[i := row];
      r := Ok(row);
    }

    method UpdateMatchForLatest(u: UpdateMatchForLatest) returns (r: Result<Match, RepositoryError>)
      requires Valid()
      modifies this
      ensures Valid()
      ensures Txn(r, State()) == MatchRepository.UpdateForLatest(old(State()), u)
    {
      MatchRepository.UpdateForLatestPreservesValid(State(), u);
      var found := Latest(matches, InChannel(u.channelId));
      if found.None? {
        return Err(RecordNotFound(MatchRepository.ChannelMatchNotFound));
      }
      var i := found.value;
      var stored := matches[i];
      var model := IntoActiveModel(stored);
      if u.closedAt.Some? {
        if model.closedAt.IsSet() {
          return Err(DuplicatedRecord(MatchRepository.AlreadyClosed));
        }
        model := model.(closedAt := Set(u.closedAt.value));
      }
      if u.winnerCandidateName.Some? {
        if model.winnerCandidateId.IsSet() {
          return Err(DuplicatedRecord(MatchRepository.WinnerAlreadySet));
        }
        match u.winnerCandidateName.value {
          case Some(name) =>
            var candidate := FindCandidate(candidates, stored.id, name);
            if candidate.None? {
              return Err(RecordNotFound(MatchRepository.CandidateNotFound));
            }
            return Err(DuplicatedRecord(MatchRepository.WinnerAlreadySet));
          case None =>
            model := model.(winnerCandidateId := Set(None));
        }
      }
      var row := Updated(stored, model);
      matches := matches[i := row];
      r := Ok(row);
    }

    method Find(id: Id) returns (r: Option<Match>)
      ensures r == MatchRepository.Find(State(), id)
    {
      var found := FindMatch(matches, id);
      r := if found.Some? then Some(matches[found.value]) else None;
    }

    method FindLatest(channelId: Id) returns (r: Option<Match>)
      ensures r == MatchRepository.FindLatest(State(), channelId)
    {
      var found := Latest(matches, InChannel(channelId));
      r := if found.Some? then Some(matches[found.value]) else None;
    }

    method DeleteLatest(channelId: Id) returns (r: Result<(), RepositoryError>)
      requires Valid()
      modifies this
      ensures Valid()
      ensures Txn(r, State()) == MatchRepository.DeleteLatest(old(State()), channelId)
    {
      MatchRepository.DeleteLatestPreservesValid(State(), channelId);
      var found := Latest(matches, UndecidedInChannel(channelId));
      if found.None? {
        return Err(RecordNotFound(MatchRepository.ChannelMatchNotFound));
      }
      var id := matches[found.value].id;
      if MatchReferenced(State(), id) {
        return Err(UnexpectedError(MatchRepository.DatabaseRejected));
      }
      matches := MatchRepository.Without(matches, id);
      r := Ok(());
    }

    method BulkInsertCandidates(cs: seq<NewCandidate>) returns (r: Result<(), RepositoryError>)
      requires Valid()
      modifies this
      ensures Valid()
      ensures Txn(r, State()) == CandidateRepository.BulkInsert(old(State()), cs)
    {
      CandidateRepository.BulkInsertPreservesValid(State(), cs);
      if |cs| == 0 {
        return Ok(());
      }
      var rows := CandidateRepository.Rows(cs);
      var failure := CandidateRepository.BatchError(matches, candidates, rows);
      if failure.Some? {
        return Err(failure.value);
      }
      candidates := candidates + rows;
      r := Ok(());
    }

    method InsertBetForLatestMatch(b: NewBetForLatestMatch) returns (r: Result<Bet, RepositoryError>)
      requires Valid()
      modifies this
      ensures Valid()
      ensures Txn(r, State()) == BetRepository.InsertForLatestMatch(old(State()), b)
    {
      BetRepository.InsertPreservesValid(State(), b);
      var found := Latest(matches, OpenInChannel(b.channelId));
      if found.None? {
        return Err(RecordNotFound(BetRepository.MatchNotFound));
      }
      var m := matches[found.value];
      var candidate := FindCandidate(candidates, m.id, b.candidateName);
      if candidate.None? {
        return Err(RecordNotFound(BetRepository.CandidateNotFound));
      }
      var user := FindUser(users, b.traqId, b.channelId);
      if user.None? {
        return Err(RecordNotFound(BetRepository.UserNotFound));
      }
      var row := Bet(b.id, users[user.value].id, m.id, candidates[candidate.value].id, b.amount);
      if BetRepository.ClashesWithAny(bets, row) {
        return Err(DuplicatedRecord(BetRepository.DatabaseRejected));
      }
      bets := bets + [row];
      r := Ok(row);
    }

    method InsertUser(u: NewUser) returns (r: Result<(), RepositoryError>)
      requires Valid()
      modifies this
      ensures Valid()
      ensures Txn(r, State()) == UserRepository.Insert(old(State()), u)
    {
      UserRepository.InsertPreservesValid(State(), u);
      var row := User(u.id, u.traqId, u.traqDisplayId, u.channelId, u.balance);
      if UserRepository.ClashesWithAny(users, row) {
        return Err(UnexpectedError(UserRepository.DatabaseRejected));
      }
      users := users + [row];
      r := Ok(());
    }
  }
}
