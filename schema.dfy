/**
 * The four tables of the migration as an in-memory value, with the keys and foreign keys the
 * migration declares, and the queries the repositories issue against them.
 */
module Schema {
  import opened Wrappers
  import opened Kernel

  /** A candidate row: `is_winner` is stored as a nullable integer. */
  datatype CandidateRow = CandidateRow(id: Id, name: string, matchId: Id, isWinner: Option<int>)

  datatype Tables = Tables(
    matches: seq<Match>,
    candidates: seq<CandidateRow>,
    bets: seq<Bet>,
    users: seq<User>)

  const Empty: Tables := Tables([], [], [], [])

  /** What a repository call returns, and the tables after it. */
  datatype Txn<T> = Txn(result: Result<T, RepositoryError>, tables: Tables)

  // ---------------------------------------------------------------------------------------------
  // Keys.

  function MatchIds(ms: seq<Match>): set<Id> {
    set i | 0 <= i < |ms| :: ms[i].id
  }

  function CandidateIds(cs: seq<CandidateRow>): set<Id> {
    set i | 0 <= i < |cs| :: cs[i].id
  }

  function UserIds(us: seq<User>): set<Id> {
    set i | 0 <= i < |us| :: us[i].id
  }

  function BetIds(bs: seq<Bet>): set<Id> {
    set i | 0 <= i < |bs| :: bs[i].id
  }

  /** Primary keys of `match`. */
  predicate MatchKeys(ms: seq<Match>) {
    forall i, j :: 0 <= i < j < |ms| ==> ms[i].id != ms[j].id
  }

  /** Two users clash on the primary key or on the unique (traq_id, channel_id). */
  predicate UserClash(a: User, b: User) {
    a.id == b.id || (a.traqId == b.traqId && a.channelId == b.channelId)
  }

  predicate UserKeys(us: seq<User>) {
    forall i, j :: 0 <= i < j < |us| ==> !UserClash(us[i], us[j])
  }

  /** Two candidates clash on the primary key or on the unique (match_id, name). */
  predicate CandidateClash(a: CandidateRow, b: CandidateRow) {
    a.id == b.id || (a.matchId == b.matchId && a.name == b.name)
  }

  predicate CandidateKeys(cs: seq<CandidateRow>) {
    forall i, j :: 0 <= i < j < |cs| ==> !CandidateClash(cs[i], cs[j])
  }

  /** Two bets clash on the primary key or on the unique (match_id, user_id). */
  predicate BetClash(a: Bet, b: Bet) {
    a.id == b.id || (a.matchId == b.matchId && a.userId == b.userId)
  }

  predicate BetKeys(bs: seq<Bet>) {
    forall i, j :: 0 <= i < j < |bs| ==> !BetClash(bs[i], bs[j])
  }

  /** The foreign keys: candidate to match; bet to match, user and candidate (no cascade). */
  predicate ForeignKeys(t: Tables) {
    (forall i :: 0 <= i < |t.candidates| ==> t.candidates[i].matchId in MatchIds(t.matches))
    && (forall i :: 0 <= i < |t.bets| ==>
          t.bets[i].matchId in MatchIds(t.matches)
          && t.bets[i].userId in UserIds(t.users)
          && t.bets[i].candidateId in CandidateIds(t.candidates))
  }

  /** Every constraint the migration declares. */
  predicate Valid(t: Tables) {
    MatchKeys(t.matches) && UserKeys(t.users) && CandidateKeys(t.candidates) && BetKeys(t.bets)
    && ForeignKeys(t)
  }

  /** Is `id` referenced by a candidate or a bet? Such a match cannot be deleted. */
  predicate MatchReferenced(t: Tables, id: Id) {
    (exists i :: 0 <= i < |t.candidates| && t.candidates[i].matchId == id)
    || (exists i :: 0 <= i < |t.bets| && t.bets[i].matchId == id)
  }

  // ---------------------------------------------------------------------------------------------
  // How the key sets change when rows are added or rewritten.

  lemma MatchIdsSnoc(ms: seq<Match>, m: Match)
    ensures MatchIds(ms + [m]) == MatchIds(ms) + {m.id}
  {
    var ms' := ms + [m];
    forall x | x in MatchIds(ms') ensures x in MatchIds(ms) + {m.id} {
      var i :| 0 <= i < |ms'| && ms'[i].id == x;
      if i < |ms| { assert ms[i].id == x; }
    }
    assert ms'[|ms|].id == m.id;
    forall x | x in MatchIds(ms) ensures x in MatchIds(ms') {
      var i :| 0 <= i < |ms| && ms[i].id == x;
      assert ms'[i].id == x;
    }
  }

  /** Rewriting rows without touching their ids keeps the ids and the key constraint. */
  lemma MatchIdsSameKeys(ms: seq<Match>, ms': seq<Match>)
    requires |ms| == |ms'| && forall i :: 0 <= i < |ms| ==> ms[i].id == ms'[i].id
    ensures MatchIds(ms') == MatchIds(ms)
    ensures MatchKeys(ms) ==> MatchKeys(ms')
  {
    forall x | x in MatchIds(ms') ensures x in MatchIds(ms) {
      var i :| 0 <= i < |ms'| && ms'[i].id == x;
      assert ms[i].id == x;
    }
    forall x | x in MatchIds(ms) ensures x in MatchIds(ms') {
      var i :| 0 <= i < |ms| && ms[i].id == x;
      assert ms'[i].id == x;
    }
  }

  lemma CandidateIdsAppend(cs: seq<CandidateRow>, ds: seq<CandidateRow>)
    ensures CandidateIds(cs + ds) == CandidateIds(cs) + CandidateIds(ds)
  {
    var e := cs + ds;
    forall x | x in CandidateIds(e) ensures x in CandidateIds(cs) + CandidateIds(ds) {
      var i :| 0 <= i < |e| && e[i].id == x;
      if i < |cs| { assert cs[i].id == x; } else { assert ds[i - |cs|].id == x; }
    }
    forall x | x in CandidateIds(cs) ensures x in CandidateIds(e) {
      var i :| 0 <= i < |cs| && cs[i].id == x;
      assert e[i].id == x;
    }
    forall x | x in CandidateIds(ds) ensures x in CandidateIds(e) {
      var i :| 0 <= i < |ds| && ds[i].id == x;
      assert e[|cs| + i].id == x;
    }
  }

  lemma UserIdsSnoc(us: seq<User>, u: User)
    ensures UserIds(us + [u]) == UserIds(us) + {u.id}
  {
    var us' := us + [u];
    forall x | x in UserIds(us') ensures x in UserIds(us) + {u.id} {
      var i :| 0 <= i < |us'| && us'[i].id == x;
      if i < |us| { assert us[i].id == x; }
    }
    assert us'[|us|].id == u.id;
    forall x | x in UserIds(us) ensures x in UserIds(us') {
      var i :| 0 <= i < |us| && us[i].id == x;
      assert us'[i].id == x;
    }
  }

  // ---------------------------------------------------------------------------------------------
  // Queries.

  /** The `filter` clauses of the match queries. */
  datatype MatchFilter =
    | InChannel(channelId: Id)            // channel only
    | UndecidedInChannel(channelId: Id)   // channel, winner is null
    | Open                                // closed_at is null, winner is null
    | OpenInChannel(channelId: Id)        // channel, closed_at is null, winner is null

  predicate Selects(f: MatchFilter, m: Match) {
    match f
    case InChannel(c) => m.channelId == c
    case UndecidedInChannel(c) => m.channelId == c && m.winnerCandidateId.None?
    case Open => m.closedAt.None? && m.winnerCandidateId.None?
    case OpenInChannel(c) => m.channelId == c && m.closedAt.None? && m.winnerCandidateId.None?
  }

  /**
   * `order_by_desc(created_at).one()`: the index of a selected match with the greatest
   * `created_at`, the first in table order among equals; `None` when nothing is selected.
   */
  function Latest(ms: seq<Match>, f: MatchFilter): (r: Option<nat>)
    ensures r.Some? ==> r.value < |ms| && Selects(f, ms[r.value])
    ensures r.Some? ==> forall j :: 0 <= j < |ms| && Selects(f, ms[j]) ==> ms[j].createdAt <= ms[r.value].createdAt
    ensures r.None? <==> forall j :: 0 <= j < |ms| ==> !Selects(f, ms[j])
    decreases |ms|
  {
    if |ms| == 0 then None
    else
      var r := Latest(ms[..|ms| - 1], f);
      var last := |ms| - 1;
      if Selects(f, ms[last]) && (r.None? || ms[r.value].createdAt < ms[last].createdAt) then Some(last)
      else r
  }

  /** `.one()` on a query by id: the first match with that id. */
  function FindMatch(ms: seq<Match>, id: Id): (r: Option<nat>)
    ensures r.Some? ==> r.value < |ms| && ms[r.value].id == id
    ensures r.None? <==> id !in MatchIds(ms)
    decreases |ms|
  {
    if |ms| == 0 then None
    else if ms[0].id == id then Some(0)
    else
      var r := FindMatch(ms[1..], id);
      assert MatchIds(ms) == {ms[0].id} + MatchIds(ms[1..]) by {
        forall x | x in MatchIds(ms) ensures x in {ms[0].id} + MatchIds(ms[1..]) {
          var i :| 0 <= i < |ms| && ms[i].id == x;
          if i > 0 { assert ms[1..][i - 1].id == x; }
        }
      }
      if r.None? then None else Some(r.value + 1)
  }

  /** Candidate lookup by (match_id, name). */
  function FindCandidate(cs: seq<CandidateRow>, matchId: Id, name: string): (r: Option<nat>)
    ensures r.Some? ==> r.value < |cs| && cs[r.value].matchId == matchId && cs[r.value].name == name
    ensures r.None? <==> forall i :: 0 <= i < |cs| ==> !(cs[i].matchId == matchId && cs[i].name == name)
    decreases |cs|
  {
    if |cs| == 0 then None
    else if cs[0].matchId == matchId && cs[0].name == name then Some(0)
    else
      var r := FindCandidate(cs[1..], matchId, name);
      assert forall i :: 1 <= i < |cs| ==> cs[i] == cs[1..][i - 1];
      if r.None? then None else Some(r.value + 1)
  }

  /** User lookup by (traq_id, channel_id). */
  function FindUser(us: seq<User>, traqId: string, channelId: Id): (r: Option<nat>)
    ensures r.Some? ==> r.value < |us| && us[r.value].traqId == traqId && us[r.value].channelId == channelId
    ensures r.None? <==> forall i :: 0 <= i < |us| ==> !(us[i].traqId == traqId && us[i].channelId == channelId)
    decreases |us|
  {
    if |us| == 0 then None
    else if us[0].traqId == traqId && us[0].channelId == channelId then Some(0)
    else
      var r := FindUser(us[1..], traqId, channelId);
      assert forall i :: 1 <= i < |us| ==> us[i] == us[1..][i - 1];
      if r.None? then None else Some(r.value + 1)
  }

  // ---------------------------------------------------------------------------------------------
  // sea-orm's active model: which columns an UPDATE writes.

  datatype ActiveValue<T> = NotSet | Unchanged(value: T) | Set(value: T) {
    /** `ActiveValue::is_set()`: true for `Set` only. */
    predicate IsSet() { Set? }
  }

  datatype ActiveMatch = ActiveMatch(
    id: ActiveValue<Id>,
    title: ActiveValue<string>,
    channelId: ActiveValue<Id>,
    messageId: ActiveValue<Option<Id>>,
    createdAt: ActiveValue<Timestamp>,
    closedAt: ActiveValue<Option<Timestamp>>,
    winnerCandidateId: ActiveValue<Option<Id>>)

  /** `into_active_model()` on a loaded row: every column `Unchanged`. */
  function IntoActiveModel(m: Match): (a: ActiveMatch)
    ensures !a.closedAt.IsSet() && !a.winnerCandidateId.IsSet() && !a.messageId.IsSet()
  {
    ActiveMatch(Unchanged(m.id), Unchanged(m.title), Unchanged(m.channelId), Unchanged(m.messageId),
      Unchanged(m.createdAt), Unchanged(m.closedAt), Unchanged(m.winnerCandidateId))
  }

  function Current<T>(v: ActiveValue<T>, stored: T): T {
    match v
    case NotSet => stored
    case Unchanged(x) => x
    case Set(x) => x
  }

  /** The row an UPDATE of `a` leaves behind for the loaded row `m`. */
  function Updated(m: Match, a: ActiveMatch): Match {
    m.(messageId := Current(a.messageId, m.messageId),
       closedAt := Current(a.closedAt, m.closedAt),
       winnerCandidateId := Current(a.winnerCandidateId, m.winnerCandidateId))
  }

  /** An UPDATE with no column `Set` writes nothing and returns the row as loaded. */
  lemma UpdateUnchanged(m: Match)
    ensures Updated(m, IntoActiveModel(m)) == m
  {
  }
}
