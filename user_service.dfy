/**
 * `saveUser`: called at sign-in. A known e-mail returns the stored user; an
 * unknown one is inserted, given a uuid if it has none, and granted the
 * new-user credits once, valid for a year. The caller's user object is
 * updated in place when it receives a uuid.
 */
module UserService {

  import opened Wrappers
  import opened Ledger

  const InvalidEmail := "invalid user email"

  /** The caller's user object, which the service changes in place. */
  class User {
    var uuid: string
    var email: string
    var nickname: string
    var avatarUrl: string

    constructor (uuid: string, email: string, nickname: string, avatarUrl: string)
      ensures Row() == UserRow(uuid, email, nickname, avatarUrl)
    {
      this.uuid, this.email, this.nickname, this.avatarUrl := uuid, email, nickname, avatarUrl;
    }

    function Row(): UserRow
      reads this
    {
      UserRow(uuid, email, nickname, avatarUrl)
    }
  }

  /**
   * The outcome, the new state and the caller's object afterwards.
   * `grant` is the new-user credit amount and `yearLater` the expiry time;
   * an insert throws `errors.0` when the uuid is in `o.faults.inserts`, the
   * grant throws `errors.1` when `o.faults.charge` holds. A failure is
   * rethrown as it is.
   */
  function SaveUserSpec(st: State, u: UserRow, grant: int, yearLater: string, o: Oracles, errors: (string, string))
    : (Result<UserRow>, State, UserRow)
  {
    if u.email == [] then (Err(InvalidEmail), st, u)
    else if u.email in st.users then (Ok(st.users[u.email]), st, u)
    else
      var row := if u.uuid == [] then u.(uuid := o.uuid(0)) else u;
      if row.uuid in o.faults.inserts then (Err(errors.0), st, row)
      else
        var st1 := st.UserInserted(row);
        if o.faults.charge then (Err(errors.1), st1, row)
        else (Ok(row), st1.Credited(row.uuid, grant, yearLater), row)
  }

  method SaveUser(b: Backend, user: User, grant: int, yearLater: string, o: Oracles, errors: (string, string)) returns (r: Result<UserRow>)
    modifies b, user
    ensures (r, b.Snapshot(), user.Row()) == SaveUserSpec(old(b.Snapshot()), old(user.Row()), grant, yearLater, o, errors)
  {
    if user.email == [] {
      return Err(InvalidEmail);
    }
    var users := b.Snapshot().users;
    if user.email in users {
      return Ok(users[user.email]);
    }
    if user.uuid == [] {
      user.uuid := o.uuid(0);
    }
    var row := user.Row();
    if row.uuid in o.faults.inserts {
      return Err(errors.0);
    }
    b.InsertUser(row);
    if o.faults.charge {
      return Err(errors.1);
    }
    b.Credit(row.uuid, grant, yearLater);
    r := Ok(row);
  }

  /** A user without e-mail is refused and nothing changes. */
  lemma MissingEmailThrows(st: State, u: UserRow, grant: int, yearLater: string, o: Oracles, errors: (string, string))
    requires u.email == []
    ensures SaveUserSpec(st, u, grant, yearLater, o, errors) == (Err(InvalidEmail), st, u)
  {
  }

  /** A known e-mail returns the stored user, grants nothing and leaves the caller's object alone. */
  lemma ExistingUserUnchanged(st: State, u: UserRow, grant: int, yearLater: string, o: Oracles, errors: (string, string))
    requires u.email != [] && u.email in st.users
    ensures SaveUserSpec(st, u, grant, yearLater, o, errors) == (Ok(st.users[u.email]), st, u)
  {
  }

  /**
   * A new e-mail is stored under a uuid (the generator's when the user had
   * none, which the caller's object then holds) and granted `grant` credits
   * once, valid until `yearLater`.
   */
  lemma NewUserGranted(st: State, u: UserRow, grant: int, yearLater: string, o: Oracles, errors: (string, string))
    requires u.email != [] && u.email !in st.users
    requires (if u.uuid == [] then o.uuid(0) else u.uuid) !in o.faults.inserts && !o.faults.charge
    ensures var (r, st', after) := SaveUserSpec(st, u, grant, yearLater, o, errors);
      var id := if u.uuid == [] then o.uuid(0) else u.uuid;
      && r == Ok(u.(uuid := id)) && after == u.(uuid := id)
      && st'.users == st.users[u.email := u.(uuid := id)]
      && st'.transactions == st.transactions + [CreditTx(id, NewUser, Increase(grant, yearLater))]
      && st'.credits == st.credits[id := st.Balance(id) + grant]
  {
  }

  /** At most one grant per call, and only to a user whose e-mail was unknown. */
  lemma GrantOnlyForNewUsers(st: State, u: UserRow, grant: int, yearLater: string, o: Oracles, errors: (string, string))
    ensures var (r, st', after) := SaveUserSpec(st, u, grant, yearLater, o, errors);
      && (st'.transactions != st.transactions ==> u.email != [] && u.email !in st.users && r.Ok?)
      && (|st'.transactions| == |st.transactions| || |st'.transactions| == |st.transactions| + 1)
      && after.email == u.email
  {
  }
}
