/**
 * The bet use case: argument validation, then the repository insert with its errors mapped onto
 * the use case's own error kinds by the words in the repository's messages.
 */
module BetUseCases {
  import opened Wrappers
  import opened Kernel
  import opened Schema
  import opened Traq
  import opened Strings
  import BetRepository
  import Store

  datatype BetUseCaseError =
    | AmountMustBePositive
    | EnabledBetAlreadyExists
    | CandidateNotFound
    | UserNotFound
    | EnabledMatchNotFound
    | UnexpectedError

  datatype Outcome<T> = Outcome(result: Result<T, BetUseCaseError>, tables: Tables, posts: seq<Post>)

  /** The command's request; the new bet's id (`Id::gen`) is an input of the conversion. */
  datatype CreateBet = CreateBet(channelId: Id, traqId: Id, candidateName: string, amount: I32)

  function ToNewBet(c: CreateBet, betId: Id): (b: NewBetForLatestMatch)
    ensures b.id == betId && b.traqId == c.traqId && b.channelId == c.channelId
    ensures b.candidateName == c.candidateName && b.amount == c.amount
  {
    NewBetForLatestMatch(betId, c.traqId, c.channelId, c.candidateName, c.amount)
  }

  const InvalidArguments: string := "引数が不正です\n賭けの対象となる候補を指定し、賭けるポイントは正の整数を指定してください\n`@BOT_bookmaker bet 候補A`の形式で指定できます"

  predicate ValidArguments(c: CreateBet) {
    c.candidateName != "" && c.amount > 0
  }

  /** A not-found message is classified by the first of "Match", "Candidate", "User" it contains. */
  function Classify(e: RepositoryError): (r: BetUseCaseError)
    ensures r == EnabledMatchNotFound <==> e.RecordNotFound? && Contains(e.message, "Match")
    ensures r == EnabledBetAlreadyExists <==> e.DuplicatedRecord?
    ensures !e.RecordNotFound? && !e.DuplicatedRecord? ==> r == BetUseCaseError.UnexpectedError
  {
    match e
    case RecordNotFound(s) =>
      if Contains(s, "Match") then EnabledMatchNotFound
      else if Contains(s, "Candidate") then CandidateNotFound
      else if Contains(s, "User") then UserNotFound
      else BetUseCaseError.UnexpectedError
    case DuplicatedRecord(_) => EnabledBetAlreadyExists
    case _ => BetUseCaseError.UnexpectedError
  }

  /** The three messages of the repository are told apart exactly. */
  lemma ClassifyRepositoryMessages()
    ensures Classify(RecordNotFound(BetRepository.MatchNotFound)) == EnabledMatchNotFound
    ensures Classify(RecordNotFound(BetRepository.CandidateNotFound)) == CandidateNotFound
    ensures Classify(RecordNotFound(BetRepository.UserNotFound)) == UserNotFound
    ensures Classify(DuplicatedRecord(BetRepository.DatabaseRejected)) == EnabledBetAlreadyExists
  {
    ClassifyMatchMessage();
    ClassifyCandidateMessage();
    ClassifyUserMessage();
  }

  lemma ClassifyMatchMessage()
    ensures Classify(RecordNotFound(BetRepository.MatchNotFound)) == EnabledMatchNotFound
  {
    assert OccursAt(BetRepository.MatchNotFound, "Match", 0);
  }

  lemma ClassifyCandidateMessage()
    ensures Classify(RecordNotFound(BetRepository.CandidateNotFound)) == CandidateNotFound
  {
    var s := BetRepository.CandidateNotFound;
    assert forall i :: 0 <= i < |s| ==> s[i] != 'M';
    NotContained(s, "Match");
    assert OccursAt(s, "Candidate", 0);
  }

  lemma ClassifyUserMessage()
    ensures Classify(RecordNotFound(BetRepository.UserNotFound)) == UserNotFound
  {
    var s := BetRepository.UserNotFound;
    assert forall i :: 0 <= i < |s| ==> s[i] != 'M' && s[i] != 'C';
    NotContained(s, "Match");
    NotContained(s, "Candidate");
    assert OccursAt(s, "User", 0);
  }

  function AfterPost<T>(reply: Reply, value: Result<T, BetUseCaseError>): Result<T, BetUseCaseError> {
    if reply.Failed? then Err(BetUseCaseError.UnexpectedError) else value
  }

  function CreateBetOutcome(t: Tables, c: CreateBet, betId: Id, reply: Reply): (o: Outcome<Bet>)
    ensures !ValidArguments(c) ==>
      o == Outcome(AfterPost(reply, Err(AmountMustBePositive)), t, [Create(NewMessage(c.channelId, InvalidArguments, true))])
    ensures ValidArguments(c) ==> o.posts == []
    ensures o.result.Err? ==> o.tables == t
    ensures o.result.Ok? ==> (ValidArguments(c) && o.tables == t.(bets := t.bets + [o.result.value])
      && o.result.value.id == betId && o.result.value.amount == c.amount)
    ensures var latest := Latest(t.matches, OpenInChannel(c.channelId));
      (o.result == Err(EnabledMatchNotFound) <==> ValidArguments(c) && latest.None?)
      && (o.result == Err(CandidateNotFound) <==> (ValidArguments(c) && latest.Some?
            && FindCandidate(t.candidates, t.matches[latest.value].id, c.candidateName).None?))
      && (o.result == Err(UserNotFound) <==> (ValidArguments(c) && latest.Some?
            && FindCandidate(t.candidates, t.matches[latest.value].id, c.candidateName).Some?
            && FindUser(t.users, c.traqId, c.channelId).None?))
    ensures o.result == Err(EnabledBetAlreadyExists) <==> (ValidArguments(c)
      && BetRepository.Resolve(t, ToNewBet(c, betId), OpenInChannel(c.channelId)).Ok?
      && BetRepository.ClashesWithAny(t.bets, BetRepository.Row(ToNewBet(c, betId),
           BetRepository.Resolve(t, ToNewBet(c, betId), OpenInChannel(c.channelId)).value)))
    ensures var b := ToNewBet(c, betId);
      var target := BetRepository.Resolve(t, b, OpenInChannel(c.channelId));
      ValidArguments(c) && target.Ok? && !BetRepository.ClashesWithAny(t.bets, BetRepository.Row(b, target.value))
      ==> o == Outcome(Ok(BetRepository.Row(b, target.value)), t.(bets := t.bets + [BetRepository.Row(b, target.value)]), [])
  {
    if !ValidArguments(c) then
      Outcome(AfterPost(reply, Err(AmountMustBePositive)), t, [Create(NewMessage(c.channelId, InvalidArguments, true))])
    else
      ClassifyRepositoryMessages();
      var inserted := BetRepository.InsertForLatestMatch(t, ToNewBet(c, betId));
      match inserted.result
      case Err(e) => Outcome(Err(Classify(e)), t, [])
      case Ok(bet) => Outcome(Ok(bet), inserted.tables, [])
  }

  /** A stored bet is positive, is on a candidate of the channel's open match, and is the caller's. */
  lemma StoredBetIsTheCallers(t: Tables, c: CreateBet, betId: Id, reply: Reply)
    requires CreateBetOutcome(t, c, betId, reply).result.Ok?
    ensures var bet := CreateBetOutcome(t, c, betId, reply).result.value;
      bet.amount > 0
      && (exists i :: 0 <= i < |t.matches| && t.matches[i].id == bet.matchId && t.matches[i].channelId == c.channelId
            && t.matches[i].closedAt.None? && t.matches[i].winnerCandidateId.None?)
      && (exists j :: 0 <= j < |t.candidates| && t.candidates[j].id == bet.candidateId
            && t.candidates[j].matchId == bet.matchId && t.candidates[j].name == c.candidateName)
      && (exists k :: 0 <= k < |t.users| && t.users[k].id == bet.userId && t.users[k].traqId == c.traqId)
  {
    var b := ToNewBet(c, betId);
    var target := BetRepository.Resolve(t, b, OpenInChannel(c.channelId)).value;
    var i := Latest(t.matches, OpenInChannel(c.channelId)).value;
    assert t.matches[i] == target.m;
    var j :| 0 <= j < |t.candidates| && t.candidates[j] == target.candidate;
    var k :| 0 <= k < |t.users| && t.users[k] == target.user;
  }

  class BetUseCase {
    const db: Store.Database
    const traq: MessageClient

    constructor (db: Store.Database, traq: MessageClient)
      ensures this.db == db && this.traq == traq
    {
      this.db := db;
      this.traq := traq;
    }

    method CreateBet(c: CreateBet, betId: Id, reply: Reply) returns (r: Result<Bet, BetUseCaseError>)
      requires db.Valid()
      modifies db, traq
      ensures db.Valid()
      ensures var o := CreateBetOutcome(old(db.State()), c, betId, reply);
        r == o.result && db.State() == o.tables && traq.sent == old(traq.sent) + o.posts
    {
      if c.candidateName == "" || c.amount <= 0 {
        var posted := traq.Create(NewMessage(c.channelId, InvalidArguments, true), reply);
        if posted.Err? {
          return Err(BetUseCaseError.UnexpectedError);
        }
        return Err(AmountMustBePositive);
      }
      var inserted := db.InsertBetForLatestMatch(ToNewBet(c, betId));
      if inserted.Err? {
        return Err(Classify(inserted.error));
      }
      r := Ok(inserted.value);
    }
  }
}
