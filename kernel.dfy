/**
 * The records the repositories and use cases exchange, as the repository bodies use them
 * (ids are strings, timestamps are plain integers standing for `DateTime<Utc>`).
 */
module Kernel {
  import opened Wrappers

  type Id = string
  type Timestamp = int

  const I32Min: int := -0x8000_0000
  const I32Max: int := 0x7fff_ffff

  /** Rust's `i32`. */
  type I32 = x: int | I32Min <= x <= I32Max

  /** A match (a bet pool) and the columns the repositories read and write. */
  datatype Match = Match(
    id: Id,
    title: string,
    channelId: Id,
    messageId: Option<Id>,
    createdAt: Timestamp,
    closedAt: Option<Timestamp>,
    winnerCandidateId: Option<Id>)

  datatype NewMatch = NewMatch(id: Id, title: string, channelId: Id, createdAt: Timestamp)

  /** `None` leaves a column alone; `Some(v)` writes `v` (which may itself be `None`). */
  datatype UpdateMatch = UpdateMatch(id: Id, messageId: Option<Option<Id>>)

  datatype UpdateMatchForLatest = UpdateMatchForLatest(
    channelId: Id,
    closedAt: Option<Option<Timestamp>>,
    winnerCandidateName: Option<Option<string>>)

  datatype Candidate = Candidate(id: Id, name: string, matchId: Id, isWinner: Option<bool>)

  datatype NewCandidate = NewCandidate(id: Id, name: string, matchId: Id)

  datatype Bet = Bet(id: Id, userId: Id, matchId: Id, candidateId: Id, amount: I32)

  datatype NewBetForLatestMatch = NewBetForLatestMatch(
    id: Id, traqId: string, channelId: Id, candidateName: string, amount: I32)

  /** A user row: one per traQ user and channel, each with its own balance. */
  datatype User = User(id: Id, traqId: string, traqDisplayId: string, channelId: Id, balance: I32)

  datatype NewUser = NewUser(id: Id, traqId: string, traqDisplayId: string, channelId: Id, balance: I32)

  datatype NewMessage = NewMessage(channelId: Id, content: string, embed: bool)

  datatype UpdateMessage = UpdateMessage(id: Id, content: string, embed: bool)

  /** The repository error, with the three variants the adapters construct. */
  datatype RepositoryError =
    | RecordNotFound(message: string)
    | DuplicatedRecord(message: string)
    | UnexpectedError(message: string)
}
