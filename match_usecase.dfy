/**
 * The match use cases: store calls and message posts in the source's order. Each is a pure
 * outcome (result, tables after, posts made), and a method over the database and the message
 * client that ends in that outcome. A transition's ids and time (`Id::gen`, `Utc::now`) are inputs.
 */
module MatchUseCases {
  import opened Wrappers
  import opened Kernel
  import opened Schema
  import opened Traq
  import opened Strings
  import MatchRepository
  import CandidateRepository
  import ArgEscape
  import Store

  datatype MatchUseCaseError =
    | WinnerCandidateAlreadySet
    | CandidateMustNotBeEmpty
    | EnabledMatchAlreadyExists
    | EnabledMatchNotFound
    | UnexpectedError

  datatype Outcome<T> = Outcome(result: Result<T, MatchUseCaseError>, tables: Tables, posts: seq<Post>)

  const TooFewCandidates: string := "賭けの対象となる候補を2つ以上指定してください\n`@BOT_bookmaker start 賭け名 候補A 候補B`の形式で指定できます"
  const NoEnabledMatch: string := "有効な賭けが見つかりませんでした"
  const WinnerAlreadySetText: string := "賭けの勝者は既に設定されています"
  const UnexpectedText: string := "予期せぬエラーが発生しました"
  const Cancelled: string := "最新の賭けをキャンセルしました"

  /**
   * The start announcement; the first candidate is shown as a `bet` argument through `escape_arg`
   * as written, so a name with a space is not quoted.
   */
  function StartedText(title: string, names: seq<string>): string
    requires |names| > 0
  {
    "### 「" + title + "」が開始されました\n対象は" + Join(names, ", ") + "です。\n`@BOT_bookmaker bet "
      + ArgEscape.EscapeArg(names[0]) + " ポイント数`の形式で参加できます"
  }

  function ClosedText(title: string): string {
    "### 「" + title + "」への bet を締め切りました\nレートは以下の通りです\nTODO: レートの表示"
  }

  function FinishedText(title: string, winner: string): string {
    "### 「" + title + "」の勝者は" + winner + "です\nTODO: ユーザーのポイント増減と総ポイント数"
  }

  /** One new candidate per name, in order, with the given ids, all in match `matchId`. */
  function NewCandidates(names: seq<string>, ids: seq<Id>, matchId: Id): (cs: seq<NewCandidate>)
    requires |ids| == |names|
    ensures |cs| == |names|
    ensures forall k :: 0 <= k < |names| ==> cs[k] == NewCandidate(ids[k], names[k], matchId)
  {
    seq(|names|, k requires 0 <= k < |names| => NewCandidate(ids[k], names[k], matchId))
  }

  /** A message is posted, then `value` is answered, unless the post failed. */
  function AfterPost<T>(reply: Reply, value: Result<T, MatchUseCaseError>): Result<T, MatchUseCaseError> {
    if reply.Failed? then Err(MatchUseCaseError.UnexpectedError) else value
  }

  function Notice(channelId: Id, content: string): Post {
    Create(NewMessage(channelId, content, true))
  }

  // ---------------------------------------------------------------------------------------------
  // create_match

  function CreateMatchOutcome(t: Tables, title: string, channelId: Id, names: seq<string>, matchId: Id,
                       candidateIds: seq<Id>, now: Timestamp, reply: Reply): (o: Outcome<Match>)
    requires |candidateIds| == |names|
    ensures |names| < 2 ==> o == Outcome(AfterPost(reply, Err(CandidateMustNotBeEmpty)), t, [Notice(channelId, TooFewCandidates)])
    ensures |names| >= 2 && MatchRepository.HasUndecided(t.matches, channelId) ==> o == Outcome(Err(EnabledMatchAlreadyExists), t, [])
    ensures o.result.Ok? ==> (reply.Delivered? && |o.posts| == 1
      && o.result.value == Match(matchId, title, channelId, None, now, None, None)
      && o.tables == t.(matches := t.matches + [o.result.value],
                        candidates := t.candidates + CandidateRepository.Rows(NewCandidates(names, candidateIds, matchId))))
    ensures |names| >= 2 && !MatchRepository.HasUndecided(t.matches, channelId) && matchId in MatchIds(t.matches) ==>
      o == Outcome(Err(MatchUseCaseError.UnexpectedError), t, [])
    ensures |names| >= 2 && !MatchRepository.HasUndecided(t.matches, channelId) && matchId !in MatchIds(t.matches) ==>
      var row := Match(matchId, title, channelId, None, now, None, None);
      var t1 := t.(matches := t.matches + [row]);
      var added := CandidateRepository.BulkInsert(t1, NewCandidates(names, candidateIds, matchId));
      (added.result.Err? ==> o == Outcome(Err(MatchUseCaseError.UnexpectedError), t1, []))
      && (added.result.Ok? ==> o == Outcome(AfterPost(reply, Ok(row)), added.tables, [Notice(channelId, StartedText(title, names))]))
    ensures |o.posts| <= 1
  {
    if |names| < 2 then Outcome(AfterPost(reply, Err(CandidateMustNotBeEmpty)), t, [Notice(channelId, TooFewCandidates)])
    else
      var inserted := MatchRepository.Insert(t, NewMatch(matchId, title, channelId, now));
      match inserted.result
      case Err(e) => Outcome(Err(if e.DuplicatedRecord? then EnabledMatchAlreadyExists else MatchUseCaseError.UnexpectedError), t, [])
      case Ok(m) =>
        var added := CandidateRepository.BulkInsert(inserted.tables, NewCandidates(names, candidateIds, m.id));
        if added.result.Err? then Outcome(Err(MatchUseCaseError.UnexpectedError), inserted.tables, [])
        else Outcome(AfterPost(reply, Ok(m)), added.tables, [Notice(m.channelId, StartedText(m.title, names))])
  }

  /**
   * Inserting the candidates is a step of its own: when two names repeat, the match row stays,
   * no candidate is stored, nothing is posted and the answer is `UnexpectedError`.
   */
  lemma RepeatedNameLeavesMatch(t: Tables, title: string, channelId: Id, names: seq<string>, matchId: Id,
                                candidateIds: seq<Id>, now: Timestamp, reply: Reply)
    requires |candidateIds| == |names| && |names| >= 2 && names[0] == names[1]
    requires CandidateKeys(t.candidates)
    requires !MatchRepository.HasUndecided(t.matches, channelId) && matchId !in MatchIds(t.matches)
    ensures var o := CreateMatchOutcome(t, title, channelId, names, matchId, candidateIds, now, reply);
      o.result == Err(MatchUseCaseError.UnexpectedError) && o.posts == []
      && o.tables == t.(matches := t.matches + [Match(matchId, title, channelId, None, now, None, None)])
  {
    var row := Match(matchId, title, channelId, None, now, None, None);
    var t1 := t.(matches := t.matches + [row]);
    var cs := NewCandidates(names, candidateIds, matchId);
    MatchIdsSnoc(t.matches, row);
    assert forall k :: 0 <= k < |cs| ==> cs[k].matchId in MatchIds(t1.matches);
    var all := t1.candidates + CandidateRepository.Rows(cs);
    assert all[|t.candidates|] == CandidateRepository.Rows(cs)[0];
    assert all[|t.candidates| + 1] == CandidateRepository.Rows(cs)[1];
    assert CandidateClash(all[|t.candidates|], all[|t.candidates| + 1]);
    CandidateRepository.DuplicateExactly(t1, cs);
  }

  // ---------------------------------------------------------------------------------------------
  // close_match: closing writes `closed_at := now` and leaves the winner alone.

  function CloseRequest(channelId: Id, now: Timestamp): UpdateMatchForLatest {
    UpdateMatchForLatest(channelId, Some(Some(now)), None)
  }

  function CloseMatchOutcome(t: Tables, channelId: Id, now: Timestamp, reply: Reply): (o: Outcome<Match>)
    ensures o.result == Err(EnabledMatchNotFound) <==> forall j :: 0 <= j < |t.matches| ==> t.matches[j].channelId != channelId
    ensures o.result.Err? ==> o.result == Err(EnabledMatchNotFound) || o.result == Err(MatchUseCaseError.UnexpectedError)
    ensures o.result == Err(EnabledMatchNotFound) ==> o.tables == t && o.posts == []
    ensures o.result.Ok? ==> (reply.Delivered? && o.result.value.closedAt == Some(now)
      && o.result.value.channelId == channelId
      && o.posts == [Notice(channelId, ClosedText(o.result.value.title))]
      && o.tables == MatchRepository.UpdateForLatest(t, CloseRequest(channelId, now)).tables)
    ensures (exists j :: 0 <= j < |t.matches| && t.matches[j].channelId == channelId) ==>
      var u := MatchRepository.UpdateForLatest(t, CloseRequest(channelId, now));
      u.result.Ok? && o == Outcome(AfterPost(reply, Ok(u.result.value)), u.tables, [Notice(channelId, ClosedText(u.result.value.title))])
  {
    var updated := MatchRepository.UpdateForLatest(t, CloseRequest(channelId, now));
    match updated.result
    case Err(e) => Outcome(Err(if e.RecordNotFound? then EnabledMatchNotFound else MatchUseCaseError.UnexpectedError), t, [])
    case Ok(m) => Outcome(AfterPost(reply, Ok(m)), updated.tables, [Notice(m.channelId, ClosedText(m.title))])
  }

  /** Closing twice succeeds both times: the second close writes the new time over the first. */
  lemma CloseTwice(t: Tables, channelId: Id, first: Timestamp, second: Timestamp)
    requires CloseMatchOutcome(t, channelId, first, Delivered("m")).result.Ok?
    ensures var t1 := CloseMatchOutcome(t, channelId, first, Delivered("m")).tables;
      CloseMatchOutcome(t1, channelId, second, Delivered("m")).result.Ok?
      && CloseMatchOutcome(t1, channelId, second, Delivered("m")).result.value.closedAt == Some(second)
  {
    var t1 := CloseMatchOutcome(t, channelId, first, Delivered("m")).tables;
    var i := Latest(t.matches, InChannel(channelId)).value;
    assert t1.matches[i].channelId == channelId;
  }

  // ---------------------------------------------------------------------------------------------
  // finish_match: a message is posted on every error before the error is returned.

  function FinishRequest(channelId: Id, winner: string): UpdateMatchForLatest {
    UpdateMatchForLatest(channelId, None, Some(Some(winner)))
  }

  /** The message and the error for a failed update. */
  function FinishFailure(e: RepositoryError): (r: (string, MatchUseCaseError))
    ensures r.1 == EnabledMatchNotFound <==> e.RecordNotFound?
    ensures r.1 == WinnerCandidateAlreadySet <==> e.DuplicatedRecord?
    ensures r.1 == MatchUseCaseError.UnexpectedError <==> r.0 == UnexpectedText
  {
    match e
    case RecordNotFound(_) => (NoEnabledMatch, EnabledMatchNotFound)
    case DuplicatedRecord(_) => (WinnerAlreadySetText, WinnerCandidateAlreadySet)
    case _ => (UnexpectedText, MatchUseCaseError.UnexpectedError)
  }

  function FinishMatchOutcome(t: Tables, channelId: Id, winner: string, reply: Reply): (o: Outcome<Match>)
    ensures o.result.Err? && o.tables == t && |o.posts| == 1
    ensures o.posts[0].Create? && o.posts[0].message.channelId == channelId
    ensures reply.Failed? ==> o.result == Err(MatchUseCaseError.UnexpectedError)
    ensures reply.Delivered? ==>
      var latest := Latest(t.matches, InChannel(channelId));
      o.result == Err(
        if latest.None? || FindCandidate(t.candidates, t.matches[latest.value].id, winner).None? then EnabledMatchNotFound
        else WinnerCandidateAlreadySet)
    ensures var u := MatchRepository.UpdateForLatest(t, FinishRequest(channelId, winner));
      u.result.Err? && o.posts[0].message.content == FinishFailure(u.result.error).0
  {
    var updated := MatchRepository.UpdateForLatest(t, FinishRequest(channelId, winner));
    match updated.result
    case Err(e) =>
      var failure := FinishFailure(e);
      Outcome(AfterPost(reply, Err(failure.1)), t, [Notice(channelId, failure.0)])
    case Ok(m) => Outcome(AfterPost(reply, Ok(m)), updated.tables, [Notice(m.channelId, FinishedText(m.title, winner))])
  }

  // ---------------------------------------------------------------------------------------------
  // delete_match

  function DeleteMatchOutcome(t: Tables, channelId: Id, reply: Reply): (o: Outcome<()>)
    ensures !MatchRepository.HasUndecided(t.matches, channelId) ==>
      o == Outcome(AfterPost(reply, Err(EnabledMatchNotFound)), t, [Notice(channelId, NoEnabledMatch)])
    ensures MatchRepository.DeleteLatest(t, channelId).result.Err? && MatchRepository.HasUndecided(t.matches, channelId) ==>
      o == Outcome(Err(MatchUseCaseError.UnexpectedError), t, [])
    ensures MatchRepository.DeleteLatest(t, channelId).result.Ok? ==>
      o == Outcome(AfterPost(reply, Ok(())), MatchRepository.DeleteLatest(t, channelId).tables, [Notice(channelId, Cancelled)])
  {
    var deleted := MatchRepository.DeleteLatest(t, channelId);
    match deleted.result
    case Err(RecordNotFound(_)) => Outcome(AfterPost(reply, Err(EnabledMatchNotFound)), t, [Notice(channelId, NoEnabledMatch)])
    case Err(_) => Outcome(Err(MatchUseCaseError.UnexpectedError), t, [])
    case Ok(_) => Outcome(AfterPost(reply, Ok(())), deleted.tables, [Notice(channelId, Cancelled)])
  }

  /**
   * No call records a winner, so a started match stays undecided; its candidates then keep it
   * from being deleted, and the channel can never start another match.
   */
  lemma StartedChannelStaysTaken(t: Tables, title: string, channelId: Id, names: seq<string>, matchId: Id,
                                 candidateIds: seq<Id>, now: Timestamp, reply: Reply,
                                 title': string, names': seq<string>, matchId': Id, candidateIds': seq<Id>, now': Timestamp, reply': Reply)
    requires |candidateIds| == |names| && |candidateIds'| == |names'| && |names'| >= 2
    requires MatchRepository.NoWinners(t.matches)
    requires CreateMatchOutcome(t, title, channelId, names, matchId, candidateIds, now, reply).result.Ok?
    ensures var t1 := CreateMatchOutcome(t, title, channelId, names, matchId, candidateIds, now, reply).tables;
      DeleteMatchOutcome(t1, channelId, reply').result == Err(MatchUseCaseError.UnexpectedError)
      && CreateMatchOutcome(t1, title', channelId, names', matchId', candidateIds', now', reply').result == Err(EnabledMatchAlreadyExists)
  {
    var o := CreateMatchOutcome(t, title, channelId, names, matchId, candidateIds, now, reply);
    var t1 := o.tables;
    var m := o.result.value;
    var n := |t.matches|;
    assert t1.matches[n] == m;
    assert Selects(UndecidedInChannel(channelId), t1.matches[n]);
    assert MatchRepository.HasUndecided(t1.matches, channelId);
    var i := Latest(t1.matches, UndecidedInChannel(channelId)).value;
    assert i == n;
    var rows := CandidateRepository.Rows(NewCandidates(names, candidateIds, matchId));
    assert t1.candidates[|t.candidates|] == rows[0];
    assert MatchReferenced(t1, m.id);
  }

  // ---------------------------------------------------------------------------------------------
  // The use-case object over the database and the message client.

  class MatchUseCase {
    const db: Store.Database
    const traq: MessageClient

    constructor (db: Store.Database, traq: MessageClient)
      ensures this.db == db && this.traq == traq
    {
      this.db := db;
      this.traq := traq;
    }

    method CreateMatch(title: string, channelId: Id, names: seq<string>, matchId: Id,
                       candidateIds: seq<Id>, now: Timestamp, reply: Reply) returns (r: Result<Match, MatchUseCaseError>)
      requires |candidateIds| == |names| && db.Valid()
      modifies db, traq
      ensures db.Valid()
      ensures var o := CreateMatchOutcome(old(db.State()), title, channelId, names, matchId, candidateIds, now, reply);
        r == o.result && db.State() == o.tables && traq.sent == old(traq.sent) + o.posts
    {
      if |names| < 2 {
        var posted := traq.Create(NewMessage(channelId, TooFewCandidates, true), reply);
        if posted.Err? {
          return Err(MatchUseCaseError.UnexpectedError);
        }
        return Err(CandidateMustNotBeEmpty);
      }
      var inserted := db.InsertMatch(NewMatch(matchId, title, channelId, now));
      if inserted.Err? {
        return Err(if inserted.error.DuplicatedRecord? then EnabledMatchAlreadyExists else MatchUseCaseError.UnexpectedError);
      }
      var m := inserted.value;
      var added := db.BulkInsertCandidates(NewCandidates(names, candidateIds, m.id));
      if added.Err? {
        return Err(MatchUseCaseError.UnexpectedError);
      }
      var posted := traq.Create(NewMessage(m.channelId, StartedText(m.title, names), true), reply);
      if posted.Err? {
        return Err(MatchUseCaseError.UnexpectedError);
      }
      r := Ok(m);
    }

    method CloseMatch(channelId: Id, now: Timestamp, reply: Reply) returns (r: Result<Match, MatchUseCaseError>)
      requires db.Valid()
      modifies db, traq
      ensures db.Valid()
      ensures var o := CloseMatchOutcome(old(db.State()), channelId, now, reply);
        r == o.result && db.State() == o.tables && traq.sent == old(traq.sent) + o.posts
    {
      var updated := db.UpdateMatchForLatest(CloseRequest(channelId, now));
      if updated.Err? {
        return Err(if updated.error.RecordNotFound? then EnabledMatchNotFound else MatchUseCaseError.UnexpectedError);
      }
      var m := updated.value;
      var posted := traq.Create(NewMessage(m.channelId, ClosedText(m.title), true), reply);
      if posted.Err? {
        return Err(MatchUseCaseError.UnexpectedError);
      }
      r := Ok(m);
    }

    method FinishMatch(channelId: Id, winner: string, reply: Reply) returns (r: Result<Match, MatchUseCaseError>)
      requires db.Valid()
      modifies db, traq
      ensures db.Valid()
      ensures var o := FinishMatchOutcome(old(db.State()), channelId, winner, reply);
        r == o.result && db.State() == o.tables && traq.sent == old(traq.sent) + o.posts
    {
      var updated := db.UpdateMatchForLatest(FinishRequest(channelId, winner));
      if updated.Err? {
        var failure := FinishFailure(updated.error);
        var posted := traq.Create(NewMessage(channelId, failure.0, true), reply);
        if posted.Err? {
          return Err(MatchUseCaseError.UnexpectedError);
        }
        return Err(failure.1);
      }
      // The finished announcement is never reached: a winner given by name is always refused.
      assert false;
    }

    method DeleteMatch(channelId: Id, reply: Reply) returns (r: Result<(), MatchUseCaseError>)
      requires db.Valid()
      modifies db, traq
      ensures db.Valid()
      ensures var o := DeleteMatchOutcome(old(db.State()), channelId, reply);
        r == o.result && db.State() == o.tables && traq.sent == old(traq.sent) + o.posts
    {
      var deleted := db.DeleteLatest(channelId);
      if deleted.Err? {
        if deleted.error.RecordNotFound? {
          var posted := traq.Create(NewMessage(channelId, NoEnabledMatch, true), reply);
          if posted.Err? {
            return Err(MatchUseCaseError.UnexpectedError);
          }
          return Err(EnabledMatchNotFound);
        }
        return Err(MatchUseCaseError.UnexpectedError);
      }
      var posted := traq.Create(NewMessage(channelId, Cancelled, true), reply);
      if posted.Err? {
        return Err(MatchUseCaseError.UnexpectedError);
      }
      r := Ok(());
    }
  }
}
