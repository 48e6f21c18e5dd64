/**
 * Shared helpers of the route handlers: the user lookup by email, the user
 * insertion with the table's unique constraints, and the placeholder
 * purchase verifier.
 */
module Helpers {
  import opened Wrappers
  import opened Ledger
  import opened Models

  /**
   * The collaborators the backend calls but that are not part of this model:
   * password hashing and checking, and the process environment.
   */
  datatype Environment = Environment(
    hashPassword: string -> string,             // generate_password_hash
    passwordMatches: (string, string) -> bool,  // check_password_hash(stored hash, password)
    allowFakePurchases: Option<string>)         // the ALLOW_FAKE_PURCHASES variable

  /** `get_user_by_email`: the position of the first row with this email, if any. */
  function FindByEmail(accounts: seq<Account>, email: string): (r: Option<nat>)
    ensures r.Some? ==> r.value < |accounts| && accounts[r.value].email == email
    ensures r.Some? ==> forall j :: 0 <= j < r.value ==> accounts[j].email != email
    ensures r.None? <==> forall j :: 0 <= j < |accounts| ==> accounts[j].email != email
    decreases |accounts|
  {
    if accounts == [] then None
    else if accounts[0].email == email then Some(0)
    else match FindByEmail(accounts[1..], email)
      case None => None
      case Some(k) => Some(k + 1)
  }

  /** Some row already holds this Google id. */
  predicate GoogleIdTaken(accounts: seq<Account>, googleId: string)
  {
    exists j :: 0 <= j < |accounts| && accounts[j].googleId == Some(googleId)
  }

  /**
   * The row `create_user` builds: the password hash only for a truthy
   * password, the Google id only for a truthy one.
   */
  function UserRow(id: nat, email: string, password: Option<string>, location: Option<string>,
                   googleId: Option<string>, env: Environment, now: Timestamp): (a: Account)
    ensures a.passwordHash.Some? <==> Truthy(password)
    ensures Truthy(password) ==> a.passwordHash == Some(env.hashPassword(password.value))
    ensures a.googleId.Some? <==> Truthy(googleId)
    ensures Truthy(googleId) ==> a.googleId == googleId
    ensures a == NewAccount(id, email, a.passwordHash, location, a.googleId, now)
  {
    NewAccount(id, email,
               if Truthy(password) then Some(env.hashPassword(password.value)) else None,
               location,
               if Truthy(googleId) then googleId else None,
               now)
  }

  /**
   * `create_user` on the table as values. It checks nothing itself; the
   * commit fails (an integrity error, `None`) when the email or the Google id
   * is already held by a row, because both columns are unique.
   */
  function CreateUserSpec(accounts: seq<Account>, email: string, password: Option<string>,
                          location: Option<string>, googleId: Option<string>,
                          env: Environment, now: Timestamp): (r: Option<seq<Account>>)
    ensures r.None? <==> FindByEmail(accounts, email).Some?
                         || (Truthy(googleId) && GoogleIdTaken(accounts, googleId.value))
    ensures r.Some? ==> |r.value| == |accounts| + 1 && r.value[..|accounts|] == accounts
    ensures r.Some? ==> r.value[|accounts|] == UserRow(|accounts| + 1, email, password, location, googleId, env, now)
    ensures r.Some? && WellFormed(accounts) ==> WellFormed(r.value)
  {
    if FindByEmail(accounts, email).Some? || (Truthy(googleId) && GoogleIdTaken(accounts, googleId.value)) then None
    else
      var added := accounts + [UserRow(|accounts| + 1, email, password, location, googleId, env, now)];
      assert added[..|accounts|] == accounts;
      Some(added)
  }

  /** `create_user` on the session: builds the row, adds it and commits. */
  method CreateUser(db: Store, email: string, password: Option<string>, location: Option<string>,
                    googleId: Option<string>, env: Environment, now: Timestamp) returns (r: Option<User>)
    requires db.Valid()
    modifies db
    ensures db.Valid() && db.ideas == old(db.ideas)
    ensures var spec := CreateUserSpec(old(db.Accounts()), email, password, location, googleId, env, now);
            r.Some? == spec.Some? && db.Accounts() == (if spec.Some? then spec.value else old(db.Accounts()))
    ensures r.None? ==> db.users == old(db.users)
    ensures r.Some? ==> fresh(r.value) && db.users == old(db.users) + [r.value]
  {
    var row := UserRow(|db.users| + 1, email, password, location, googleId, env, now);
    var accounts := db.Accounts();
    if FindByEmail(accounts, email).Some? || (Truthy(googleId) && GoogleIdTaken(accounts, googleId.value)) {
      return None;
    }
    ghost var spec := CreateUserSpec(accounts, email, password, location, googleId, env, now);
    assert spec == Some(accounts + [row]);
    var u := new User(row.id, row.email, row.passwordHash, row.location, row.googleId, row.createdAt);
    db.users := db.users + [u];
    assert db.Accounts() == accounts + [row];
    r := Some(u);
  }

  /**
   * The placeholder purchase verifier: accepts every purchase when the
   * environment sets ALLOW_FAKE_PURCHASES to "1" and rejects every one
   * otherwise, whatever the package, product and token.
   */
  function VerifyPlayPurchase(env: Environment, packageName: string, productId: string,
                              purchaseToken: string): (ok: bool)
    ensures ok <==> env.allowFakePurchases == Some("1")
  {
    env.allowFakePurchases == Some("1")
  }

  /**
   * The verifier looks at nothing of the purchase: any two purchases get the
   * same verdict in the same environment, so a purchase accepted once is
   * accepted again, and with the variable unset or set to anything but "1"
   * (even "true" or "01") none is accepted.
   */
  lemma VerdictIgnoresPurchase(env: Environment, packageName: string, productId: string, purchaseToken: string,
                               packageName': string, productId': string, purchaseToken': string)
    ensures VerifyPlayPurchase(env, packageName, productId, purchaseToken)
            == VerifyPlayPurchase(env, packageName', productId', purchaseToken')
    ensures env.allowFakePurchases in {None, Some(""), Some("true"), Some("01")}
            ==> !VerifyPlayPurchase(env, packageName, productId, purchaseToken)
  {
  }
}
