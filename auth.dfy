/**
 * The three sign-in routes as operations on the email-keyed user table:
 * password registration, password login and Google login.
 */
module Auth {
  import opened Wrappers
  import opened Ledger
  import opened Models
  import opened Helpers

  /** Every access token the backend issues expires after this many days. */
  const TokenLifetimeDays: nat := 30

  /** The JWT issued for a user id; signing is not modelled. */
  datatype AccessToken = AccessToken(identity: nat, expiresDays: nat)

  datatype AuthReply =
    | Authorized(token: AccessToken, email: string, location: Option<string>)  // 200
    | Rejected(status: nat, error: string)

  const MissingCredentials: string := "email and password required"
  const UserExists: string := "User already exists"
  const InvalidCredentials: string := "Invalid credentials"
  const MissingGoogleFields: string := "email and google_id required"
  /** An unhandled failure of the commit on a unique column; the server answers 500. */
  const IntegrityError: string := "integrity error"

  /** The success reply for a row: a 30-day token for its id, its email and location. */
  function IssueFor(a: Account): AuthReply
  {
    Authorized(AccessToken(a.id, TokenLifetimeDays), a.email, a.location)
  }

  /** The password `password` opens the row: it has a hash and the hash matches. */
  predicate PasswordOpens(a: Account, password: string, env: Environment)
  {
    Truthy(a.passwordHash) && env.passwordMatches(a.passwordHash.value, password)
  }

  /** `api_register` on the table as values. */
  function RegisterSpec(accounts: seq<Account>, email: Option<string>, password: Option<string>,
                        location: Option<string>, env: Environment, now: Timestamp): (r: (AuthReply, seq<Account>))
    ensures !Truthy(email) || !Truthy(password) ==> r == (Rejected(400, MissingCredentials), accounts)
    ensures Truthy(email) && Truthy(password) && FindByEmail(accounts, email.value).Some?
            ==> r == (Rejected(400, UserExists), accounts)
    ensures r.0.Authorized? <==> Truthy(email) && Truthy(password) && FindByEmail(accounts, email.value).None?
    ensures r.0.Rejected? ==> r.1 == accounts
    ensures r.0.Authorized? ==>
              && |r.1| == |accounts| + 1 && r.1[..|accounts|] == accounts
              && r.1[|accounts|].email == email.value && r.1[|accounts|].location == location
              && r.1[|accounts|].passwordHash == Some(env.hashPassword(password.value))
              && r.1[|accounts|].googleId == None
              && r.1[|accounts|].counters == Counters(2, 0)
              && r.0 == IssueFor(r.1[|accounts|])
    ensures WellFormed(accounts) ==> WellFormed(r.1)
  {
    if !Truthy(email) || !Truthy(password) then (Rejected(400, MissingCredentials), accounts)
    else if FindByEmail(accounts, email.value).Some? then (Rejected(400, UserExists), accounts)
    else
      var added := CreateUserSpec(accounts, email.value, password, location, None, env, now).value;
      (IssueFor(added[|accounts|]), added)
  }

  /** `api_register`. */
  method ApiRegister(db: Store, email: Option<string>, password: Option<string>, location: Option<string>,
                     env: Environment, now: Timestamp) returns (reply: AuthReply)
    requires db.Valid()
    modifies db
    ensures db.Valid() && db.ideas == old(db.ideas)
    ensures (reply, db.Accounts()) == RegisterSpec(old(db.Accounts()), email, password, location, env, now)
    ensures |db.users| >= |old(db.users)| && db.users[..|old(db.users)|] == old(db.users)
  {
    if !Truthy(email) || !Truthy(password) {
      return Rejected(400, MissingCredentials);
    }
    if FindByEmail(db.Accounts(), email.value).Some? {
      return Rejected(400, UserExists);
    }
    var created := CreateUser(db, email.value, password, location, None, env, now);
    var u := created.value;
    reply := Authorized(AccessToken(u.id, TokenLifetimeDays), u.email, u.location);
  }

  /** `api_login` on the table as values. */
  function LoginSpec(accounts: seq<Account>, email: Option<string>, password: Option<string>,
                     env: Environment): (r: AuthReply)
    ensures !Truthy(email) || !Truthy(password) ==> r == Rejected(400, MissingCredentials)
    ensures r.Authorized? ==>
              Truthy(email) && Truthy(password) &&
              exists k :: 0 <= k < |accounts| && accounts[k].email == email.value
                          && PasswordOpens(accounts[k], password.value, env) && r == IssueFor(accounts[k])
    ensures Truthy(email) && Truthy(password) && EmailsUnique(accounts) &&
            (exists k :: 0 <= k < |accounts| && accounts[k].email == email.value
                         && PasswordOpens(accounts[k], password.value, env))
            ==> r.Authorized?
    ensures Truthy(email) && Truthy(password) && !r.Authorized? ==> r == Rejected(401, InvalidCredentials)
  {
    if !Truthy(email) || !Truthy(password) then Rejected(400, MissingCredentials)
    else match FindByEmail(accounts, email.value)
      case None => Rejected(401, InvalidCredentials)
      case Some(k) =>
        if PasswordOpens(accounts[k], password.value, env) then IssueFor(accounts[k])
        else Rejected(401, InvalidCredentials)
  }

  /** `api_login`: reads the table and changes nothing. */
  method ApiLogin(db: Store, email: Option<string>, password: Option<string>, env: Environment)
    returns (reply: AuthReply)
    ensures reply == LoginSpec(db.Accounts(), email, password, env)
  {
    if !Truthy(email) || !Truthy(password) {
      return Rejected(400, MissingCredentials);
    }
    var found := FindByEmail(db.Accounts(), email.value);
    if found.None? {
      return Rejected(401, InvalidCredentials);
    }
    var user := db.users[found.value];
    if !Truthy(user.passwordHash) || !env.passwordMatches(user.passwordHash.value, password.value) {
      return Rejected(401, InvalidCredentials);
    }
    reply := Authorized(AccessToken(user.id, TokenLifetimeDays), user.email, user.location);
  }

  /** `api_google_login` on the table as values. */
  function GoogleLoginSpec(accounts: seq<Account>, email: Option<string>, googleId: Option<string>,
                           location: Option<string>, env: Environment, now: Timestamp): (r: (AuthReply, seq<Account>))
    ensures !Truthy(email) || !Truthy(googleId) ==> r == (Rejected(400, MissingGoogleFields), accounts)
    ensures Truthy(email) && Truthy(googleId) && FindByEmail(accounts, email.value).None? ==>
              if GoogleIdTaken(accounts, googleId.value) then r == (Rejected(500, IntegrityError), accounts)
              else
                && |r.1| == |accounts| + 1 && r.1[..|accounts|] == accounts
                && r.1[|accounts|].email == email.value && r.1[|accounts|].googleId == googleId
                && r.1[|accounts|].location == location && r.1[|accounts|].passwordHash == None
                && r.1[|accounts|] == UserRow(|accounts| + 1, email.value, None, location, googleId, env, now)
                && r.1[|accounts|].counters == Counters(2, 0)
                && r.0 == IssueFor(r.1[|accounts|])
    ensures Truthy(email) && Truthy(googleId) && FindByEmail(accounts, email.value).Some? ==>
              var k := FindByEmail(accounts, email.value).value;
              if Truthy(accounts[k].googleId) then r == (IssueFor(accounts[k]), accounts)
              else if GoogleIdTaken(accounts, googleId.value) then r == (Rejected(500, IntegrityError), accounts)
              else r.1 == accounts[k := accounts[k].(googleId := googleId)] && r.0 == IssueFor(r.1[k])
    ensures |r.1| >= |accounts| && forall i :: 0 <= i < |accounts| ==> r.1[i].counters == accounts[i].counters
    ensures WellFormed(accounts) ==> WellFormed(r.1)
  {
    if !Truthy(email) || !Truthy(googleId) then (Rejected(400, MissingGoogleFields), accounts)
    else match FindByEmail(accounts, email.value)
      case None =>
        (match CreateUserSpec(accounts, email.value, None, location, googleId, env, now)
         case None => (Rejected(500, IntegrityError), accounts)
         case Some(added) => (IssueFor(added[|accounts|]), added))
      case Some(k) =>
        if Truthy(accounts[k].googleId) then (IssueFor(accounts[k]), accounts)
        else if GoogleIdTaken(accounts, googleId.value) then (Rejected(500, IntegrityError), accounts)
        else
          var linked := accounts[k := accounts[k].(googleId := googleId)];
          (IssueFor(linked[k]), linked)
  }

  /** `api_google_login`. */
  method ApiGoogleLogin(db: Store, email: Option<string>, googleId: Option<string>, location: Option<string>,
                        env: Environment, now: Timestamp) returns (reply: AuthReply)
    requires db.Valid()
    modifies db, db.users
    ensures db.Valid() && db.ideas == old(db.ideas)
    ensures (reply, db.Accounts()) == GoogleLoginSpec(old(db.Accounts()), email, googleId, location, env, now)
    ensures |db.users| >= |old(db.users)| && db.users[..|old(db.users)|] == old(db.users)
  {
    if !Truthy(email) || !Truthy(googleId) {
      return Rejected(400, MissingGoogleFields);
    }
    var accounts := db.Accounts();
    var found := FindByEmail(accounts, email.value);
    var user: User;
    if found.None? {
      var created := CreateUser(db, email.value, None, location, googleId, env, now);
      if created.None? {
        return Rejected(500, IntegrityError);
      }
      user := created.value;
    } else {
      var k := found.value;
      user := db.users[k];
      if !Truthy(user.googleId) {
        if GoogleIdTaken(accounts, googleId.value) {
          return Rejected(500, IntegrityError);
        }
        user.googleId := googleId;
        assert db.Accounts() == accounts[k := accounts[k].(googleId := googleId)];
      }
    }
    reply := Authorized(AccessToken(user.id, TokenLifetimeDays), user.email, user.location);
  }
}
