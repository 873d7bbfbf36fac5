/** The user records the auth and user handlers load, change and save. */
module Users {
  import opened Common

  /** A row of the users table. `pin` holds the PIN's hash; `otpExpires` is a
      millisecond timestamp. */
  datatype User = User(id: UserId, email: string, userCode: string, pin: Option<string>,
                       displayName: Option<string>, avatar: Option<string>,
                       otpSecret: Option<string>, otpExpires: Option<int>,
                       twoFactorEnabled: bool, twoFactorSecret: Option<string>,
                       fcmToken: Option<string>)

  /** The authenticated requester (`req.user`). */
  datatype Requester = Requester(id: UserId, displayName: Option<string>)

  /** A freshly created user: only the email and the code are set. */
  function NewUser(id: UserId, email: string, userCode: string): User {
    User(id, email, userCode, None, None, None, None, None, false, None, None)
  }

  /** What a handler throws when it reads an association of a user row
      that does not exist. */
  const NullFriendsMessage: string := "Cannot read properties of null (reading 'friends')"

  /** The users table, rows in storage order. */
  class UserTable {
    var rows: seq<User>

    constructor (rows: seq<User>)
      ensures this.rows == rows
    {
      this.rows := rows;
    }
  }

  /** `findByPk(id)` */
  function FindById(rows: seq<User>, id: UserId): Option<nat> {
    FindIndex(rows, (u: User) => u.id == id)
  }

  /** `findOne({ where: { email } })` */
  function FindByEmail(rows: seq<User>, email: string): Option<nat> {
    FindIndex(rows, (u: User) => u.email == email)
  }

  /** `findOne({ where: { userCode } })` */
  function FindByCode(rows: seq<User>, code: string): Option<nat> {
    FindIndex(rows, (u: User) => u.userCode == code)
  }

  /** Every user code in use. */
  function Codes(rows: seq<User>): set<string> {
    set u | u in rows :: u.userCode
  }

  /** The email column is unique. */
  predicate UniqueEmails(rows: seq<User>) {
    forall i, j :: 0 <= i < j < |rows| ==> rows[i].email != rows[j].email
  }
}
