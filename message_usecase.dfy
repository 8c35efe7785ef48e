/**
 * `upsert_match_message`: render a match's pools into the status message and post it, as an edit
 * of the match's message when it has one, else as a new message whose id is then stored on the
 * match. The floating-point rate of a pool is rendered by a caller-supplied function.
 */
module MessageUseCases {
  import opened Wrappers
  import opened Kernel
  import opened Schema
  import opened Traq
  import opened Strings
  import opened Statistic
  import MatchRepository
  import CandidateRepository
  import BetRepository
  import UserRepository
  import Store

  datatype MessageUseCaseError = UnexpectedError

  datatype Outcome = Outcome(result: Result<(), MessageUseCaseError>, tables: Tables, posts: seq<Post>)

  datatype UpsertMatchMessage = UpsertMatchMessage(channelId: Id, m: Match)

  // ---------------------------------------------------------------------------------------------
  // Rendering

  /** The first user carrying `userId`. */
  function FirstUser(users: seq<User>, userId: Id): (r: Option<nat>)
    ensures r.Some? ==> (r.value < |users| && users[r.value].id == userId
      && forall j :: 0 <= j < r.value ==> users[j].id != userId)
    ensures r.None? ==> forall j :: 0 <= j < |users| ==> users[j].id != userId
    decreases |users|
  {
    if |users| == 0 then None
    else if users[0].id == userId then Some(0)
    else
      var r := FirstUser(users[1..], userId);
      if r.None? then None else Some(r.value + 1)
  }

  /** The display id of the bet's user, or "unknown" when the channel has no such user. */
  function Label(users: seq<User>, userId: Id): string {
    match FirstUser(users, userId)
    case None => "unknown"
    case Some(k) => users[k].traqDisplayId
  }

  function Mention(users: seq<User>, b: Bet): string {
    ":@" + Label(users, b.userId) + ":"
  }

  /** The bettors fold: each bet's mention is put in front of what came before. */
  function Bettors(users: seq<User>, bs: seq<Bet>): (r: string)
    ensures r == "" <==> |bs| == 0
    decreases |bs|
  {
    if |bs| == 0 then "" else Mention(users, bs[|bs| - 1]) + Bettors(users, bs[..|bs| - 1])
  }

  function Reverse<T>(s: seq<T>): (r: seq<T>)
    ensures |r| == |s| && forall i :: 0 <= i < |s| ==> r[i] == s[|s| - 1 - i]
    decreases |s|
  {
    if |s| == 0 then [] else [s[|s| - 1]] + Reverse(s[..|s| - 1])
  }

  /** Reference listing: the mentions of `bs` in the order given. */
  function Mentions(users: seq<User>, bs: seq<Bet>): string
    decreases |bs|
  {
    if |bs| == 0 then "" else Mention(users, bs[0]) + Mentions(users, bs[1..])
  }

  /** The bettors are listed newest bet first. */
  lemma {:induction false} BettorsNewestFirst(users: seq<User>, bs: seq<Bet>)
    ensures Bettors(users, bs) == Mentions(users, Reverse(bs))
    decreases |bs|
  {
    if |bs| > 0 {
      var n := |bs| - 1;
      BettorsNewestFirst(users, bs[..n]);
      var r := Reverse(bs);
      assert r[0] == bs[n];
      assert r[1..] == Reverse(bs[..n]);
    }
  }

  /** The line of one pool, after the newline the fold puts in front of it. */
  function Line(users: seq<User>, rate: Statistic -> string, s: Statistic): string {
    s.candidate.name + ": " + rate(s) + "倍(" + IntToString(s.amount) + "pt)\n  - " + Bettors(users, s.bets) + "\n"
  }

  /** The pools fold: each step wraps what came before as `"- " + acc + "\n" + line`. */
  function Blocks(users: seq<User>, rate: Statistic -> string, stats: seq<Statistic>): (r: string)
    ensures r == "" <==> |stats| == 0
    decreases |stats|
  {
    if |stats| == 0 then ""
    else "- " + Blocks(users, rate, stats[..|stats| - 1]) + "\n" + Line(users, rate, stats[|stats| - 1])
  }

  function Content(title: string, users: seq<User>, rate: Statistic -> string, stats: seq<Statistic>): string {
    "### 「" + title + "」が作成されました\n" + Blocks(users, rate, stats)
  }

  /** `n` copies of the bullet marker. */
  function Markers(n: nat): string {
    if n == 0 then "" else "- " + Markers(n - 1)
  }

  /** Reference listing: each pool's line after a newline, in order. */
  function Lines(users: seq<User>, rate: Statistic -> string, stats: seq<Statistic>): string
    decreases |stats|
  {
    if |stats| == 0 then "" else Lines(users, rate, stats[..|stats| - 1]) + "\n" + Line(users, rate, stats[|stats| - 1])
  }

  /**
   * The fold puts all bullet markers in front, one per pool, and then the pools' lines in order,
   * largest pool first.
   */
  lemma {:induction false} BlocksLayout(users: seq<User>, rate: Statistic -> string, stats: seq<Statistic>)
    ensures Blocks(users, rate, stats) == Markers(|stats|) + Lines(users, rate, stats)
    decreases |stats|
  {
    if |stats| > 0 {
      var n := |stats|;
      var init := stats[..n - 1];
      var line := Line(users, rate, stats[n - 1]);
      BlocksLayout(users, rate, init);
      var markers := Markers(n - 1);
      var lines := Lines(users, rate, init);
      assert Blocks(users, rate, stats) == "- " + (markers + lines) + "\n" + line;
      Regroup(markers, lines, line);
    }
  }

  lemma Regroup(markers: string, lines: string, line: string)
    ensures "- " + (markers + lines) + "\n" + line == ("- " + markers) + (lines + "\n" + line)
  {
  }

  // ---------------------------------------------------------------------------------------------
  // The use case

  /** What `new_statistics` promises for the match's candidates and bets. */
  predicate StatisticsOf(t: Tables, matchId: Id, stats: seq<Statistic>) {
    var candidates := CandidateRepository.SelectByMatchId(t, matchId);
    var bets := BetRepository.SelectByMatchId(t, matchId);
    multiset(stats) == multiset(Entries(candidates, bets, Ids(candidates))) && Descending(stats)
  }

  function UpsertContent(t: Tables, src: UpsertMatchMessage, rate: Statistic -> string, stats: seq<Statistic>): string {
    Content(src.m.title, UserRepository.SelectByChannelId(t, src.channelId), rate, stats)
  }

  function UpsertOutcome(t: Tables, src: UpsertMatchMessage, rate: Statistic -> string, stats: seq<Statistic>, reply: Reply): (o: Outcome)
    ensures src.m.messageId.Some? ==> (o.tables == t
      && o.posts == [Edit(UpdateMessage(src.m.messageId.value, UpsertContent(t, src, rate, stats), true))]
      && (o.result.Ok? <==> reply.Delivered?))
    ensures src.m.messageId.None? ==> o.posts == [Create(NewMessage(src.channelId, UpsertContent(t, src, rate, stats), true))]
    ensures src.m.messageId.None? && reply.Failed? ==> o.tables == t && o.result.Err?
    ensures src.m.messageId.None? && reply.Delivered? ==> (
      var stored := MatchRepository.Update(t, UpdateMatch(src.m.id, Some(Some(reply.messageId))));
      o.tables == stored.tables && (o.result.Ok? <==> src.m.id in MatchIds(t.matches)))
  {
    var content := UpsertContent(t, src, rate, stats);
    match src.m.messageId
    case Some(id) =>
      Outcome(if reply.Delivered? then Ok(()) else Err(MessageUseCaseError.UnexpectedError), t, [Edit(UpdateMessage(id, content, true))])
    case None =>
      var post := Create(NewMessage(src.channelId, content, true));
      match reply
      case Failed => Outcome(Err(MessageUseCaseError.UnexpectedError), t, [post])
      case Delivered(messageId) =>
        var stored := MatchRepository.Update(t, UpdateMatch(src.m.id, Some(Some(messageId))));
        Outcome(if stored.result.Ok? then Ok(()) else Err(MessageUseCaseError.UnexpectedError), stored.tables, [post])
  }

  /**
   * A first upsert stores the new message's id on the match; the match as read back then carries
   * it, so the next upsert edits that message instead of posting another.
   */
  lemma UpsertRecordsMessage(t: Tables, src: UpsertMatchMessage, rate: Statistic -> string, stats: seq<Statistic>,
                             messageId: Id, rate': Statistic -> string, stats': seq<Statistic>, reply': Reply)
    requires MatchKeys(t.matches) && src.m.messageId.None? && src.m.id in MatchIds(t.matches)
    ensures var t1 := UpsertOutcome(t, src, rate, stats, Delivered(messageId)).tables;
      MatchRepository.Find(t1, src.m.id).Some?
      && MatchRepository.Find(t1, src.m.id).value.messageId == Some(messageId)
      && UpsertOutcome(t1, src.(m := MatchRepository.Find(t1, src.m.id).value), rate', stats', reply').posts[0].Edit?
      && UpsertOutcome(t1, src.(m := MatchRepository.Find(t1, src.m.id).value), rate', stats', reply').posts[0].update.id == messageId
  {
    var stored := MatchRepository.Update(t, UpdateMatch(src.m.id, Some(Some(messageId))));
    var t1 := stored.tables;
    var i :| 0 <= i < |t.matches| && t.matches[i].id == src.m.id
      && stored.result.value == t.matches[i].(messageId := Some(messageId))
      && t1 == t.(matches := t.matches[i := stored.result.value]);
    assert t1.matches[i].id == src.m.id;
    var found := MatchRepository.Find(t1, src.m.id).value;
  }

  class MessageUseCase {
    const db: Store.Database
    const traq: MessageClient

    constructor (db: Store.Database, traq: MessageClient)
      ensures this.db == db && this.traq == traq
    {
      this.db := db;
      this.traq := traq;
    }

    /** `stats` is the ordering of the pools this run produced: ties may come in any order. */
    method UpsertMatchMessage(src: UpsertMatchMessage, rate: Statistic -> string, reply: Reply)
      returns (r: Result<(), MessageUseCaseError>, ghost stats: seq<Statistic>)
      requires db.Valid()
      modifies db, traq
      ensures db.Valid()
      ensures StatisticsOf(old(db.State()), src.m.id, stats)
      ensures var o := UpsertOutcome(old(db.State()), src, rate, stats, reply);
        r == o.result && db.State() == o.tables && traq.sent == old(traq.sent) + o.posts
    {
      var t := db.State();
      var candidates := CandidateRepository.SelectByMatchId(t, src.m.id);
      var bets := BetRepository.SelectByMatchId(t, src.m.id);
      var users := UserRepository.SelectByChannelId(t, src.channelId);
      var computed := NewStatistics(bets, candidates);
      stats := computed;
      var content := Content(src.m.title, users, rate, computed);
      if src.m.messageId.Some? {
        var edited := traq.Update(UpdateMessage(src.m.messageId.value, content, true), reply);
        if edited.Err? {
          return Err(MessageUseCaseError.UnexpectedError), stats;
        }
        return Ok(()), stats;
      }
      var created := traq.Create(NewMessage(src.channelId, content, true), reply);
      if created.Err? {
        return Err(MessageUseCaseError.UnexpectedError), stats;
      }
      var updated := db.UpdateMatch(UpdateMatch(src.m.id, Some(Some(created.value))));
      if updated.Err? {
        return Err(MessageUseCaseError.UnexpectedError), stats;
      }
      r := Ok(());
    }
  }
}
