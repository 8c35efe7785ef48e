/** The user repository: one row insert, with every failure reported as `UnexpectedError`. */
module UserRepository {
  import opened Wrappers
  import opened Kernel
  import opened Schema

  /** The balance a newly created user starts with. */
  const InitialBalance: I32 := 10_000

  const DatabaseRejected: string := "database error"

  /** The user a registration creates. */
  function NewUserFor(id: Id, traqId: string, traqDisplayId: string, channelId: Id): (u: NewUser)
    ensures u.balance == 10_000
    ensures u.id == id && u.traqId == traqId && u.traqDisplayId == traqDisplayId && u.channelId == channelId
  {
    NewUser(id, traqId, traqDisplayId, channelId, InitialBalance)
  }

  function Row(u: NewUser): User {
    User(u.id, u.traqId, u.traqDisplayId, u.channelId, u.balance)
  }

  predicate ClashesWithAny(us: seq<User>, row: User) {
    exists i :: 0 <= i < |us| && UserClash(us[i], row)
  }

  /** `insert`: store exactly the given columns, unless the primary key or (traq_id, channel_id) is taken. */
  function Insert(t: Tables, u: NewUser): (r: Txn<()>)
    ensures r.result.Ok? <==> !ClashesWithAny(t.users, Row(u))
    ensures r.result.Ok? ==> r.tables == t.(users := t.users + [User(u.id, u.traqId, u.traqDisplayId, u.channelId, u.balance)])
    ensures r.result.Err? ==> r.result.error.UnexpectedError? && r.tables == t
  {
    if ClashesWithAny(t.users, Row(u)) then Txn(Err(UnexpectedError(DatabaseRejected)), t)
    else Txn(Ok(()), t.(users := t.users + [Row(u)]))
  }

  lemma InsertPreservesValid(t: Tables, u: NewUser)
    requires Valid(t)
    ensures Valid(Insert(t, u).tables)
  {
    var r := Insert(t, u);
    if r.result.Ok? {
      UserIdsSnoc(t.users, Row(u));
      var us := r.tables.users;
      forall i, j | 0 <= i < j < |us| ensures !UserClash(us[i], us[j]) {
        if j == |t.users| {
          assert us[i] == t.users[i];
        } else {
          assert us[i] == t.users[i] && us[j] == t.users[j];
        }
      }
    }
  }

  /** Registering the same traQ user twice in one channel: the second insert fails, whatever its id. */
  lemma SecondRegistrationRefused(t: Tables, u: NewUser, u': NewUser)
    requires Insert(t, u).result.Ok?
    requires u'.traqId == u.traqId && u'.channelId == u.channelId
    ensures Insert(Insert(t, u).tables, u') == Txn(Err(UnexpectedError(DatabaseRejected)), Insert(t, u).tables)
  {
    var us := Insert(t, u).tables.users;
    assert UserClash(us[|t.users|], Row(u'));
  }

  /** `select_by_channel_id`: the users registered in a channel, in table order. */
  function SelectByChannelId(t: Tables, channelId: Id): (r: seq<User>)
    ensures forall u :: u in r <==> u in t.users && u.channelId == channelId
  {
    Select(t.users, channelId)
  }

  function Select(us: seq<User>, channelId: Id): (r: seq<User>)
    ensures forall u :: u in r <==> u in us && u.channelId == channelId
    decreases |us|
  {
    if |us| == 0 then []
    else Select(us[..|us| - 1], channelId) + (if us[|us| - 1].channelId == channelId then [us[|us| - 1]] else [])
  }
}
