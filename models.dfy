/**
 * The ORM layer: the `User` row object with its two in-place operations, the
 * `Idea` record, and the database session holding both tables.
 */
module Models {
  import opened Wrappers
  import opened Ledger

  /** Creation times are abstract, totally ordered values. */
  type Timestamp = int

  /** A value snapshot of one user row. */
  datatype Account = Account(
    id: nat,
    email: string,
    passwordHash: Option<string>,
    location: Option<string>,
    counters: Counters,
    googleId: Option<string>,
    createdAt: Timestamp)

  /**
   * A user row as inserted: the counters take their column defaults and the
   * other columns the given values.
   */
  function NewAccount(id: nat, email: string, passwordHash: Option<string>, location: Option<string>,
                      googleId: Option<string>, createdAt: Timestamp): (a: Account)
    ensures a.counters.freeUses == 2 && a.counters.credits == 0
    ensures HasCredits(a.counters) && NonNegative(a.counters)
    ensures a.id == id && a.email == email && a.location == location
  {
    Account(id, email, passwordHash, location, Counters(DefaultFreeUses, DefaultCredits), googleId, createdAt)
  }

  /** One analysed idea. Never updated once inserted. */
  datatype Idea = Idea(
    id: nat,
    userId: int,
    ideaText: string,
    analysis: Option<string>,
    score: Option<int>,
    location: Option<string>,
    createdAt: Timestamp)

  /** Primary keys are handed out in insertion order starting at 1, and rows are never deleted. */
  predicate IdsSequential(accounts: seq<Account>)
  {
    forall i :: 0 <= i < |accounts| ==> accounts[i].id == i + 1
  }

  /** The unique constraint on the `email` column. */
  predicate EmailsUnique(accounts: seq<Account>)
  {
    forall i, j :: 0 <= i < j < |accounts| ==> accounts[i].email != accounts[j].email
  }

  /** The unique constraint on the nullable `google_id` column (NULLs never clash). */
  predicate GoogleIdsUnique(accounts: seq<Account>)
  {
    forall i, j :: 0 <= i < j < |accounts| && accounts[i].googleId.Some? ==> accounts[i].googleId != accounts[j].googleId
  }

  predicate WellFormed(accounts: seq<Account>)
  {
    IdsSequential(accounts) && EmailsUnique(accounts) && GoogleIdsUnique(accounts)
  }

  class User {
    const id: nat
    const email: string
    const passwordHash: Option<string>
    const location: Option<string>
    var freeUses: int
    var credits: int
    var googleId: Option<string>
    const createdAt: Timestamp

    /** A new row with the column defaults for the two counters. */
    constructor (id: nat, email: string, passwordHash: Option<string>, location: Option<string>,
                 googleId: Option<string>, createdAt: Timestamp)
      ensures Snapshot() == NewAccount(id, email, passwordHash, location, googleId, createdAt)
    {
      this.id := id;
      this.email := email;
      this.passwordHash := passwordHash;
      this.location := location;
      this.freeUses := DefaultFreeUses;
      this.credits := DefaultCredits;
      this.googleId := googleId;
      this.createdAt := createdAt;
    }

    function Allowance(): Counters
      reads this
    {
      Counters(freeUses, credits)
    }

    function Snapshot(): Account
      reads this
    {
      Account(id, email, passwordHash, location, Allowance(), googleId, createdAt)
    }

    /** `has_credits`. */
    predicate HasCredits()
      reads this
    {
      Ledger.HasCredits(Allowance())
    }

    /** `consume_credit`: credits first, then free uses, nothing when both are spent. */
    method ConsumeCredit()
      modifies this`freeUses, this`credits
      ensures Allowance() == Ledger.ConsumeCredit(old(Allowance()))
      ensures old(HasCredits()) ==> Total(Allowance()) == Total(old(Allowance())) - 1
      ensures !old(HasCredits()) ==> Allowance() == old(Allowance())
    {
      if credits > 0 {
        credits := credits - 1;
      } else if freeUses > 0 {
        freeUses := freeUses - 1;
      }
    }
  }

  /** The database session: the user table and the idea table. */
  class Store {
    var users: seq<User>
    var ideas: seq<Idea>

    constructor ()
      ensures users == [] && ideas == [] && Valid()
    {
      users := [];
      ideas := [];
    }

    /** The user table as values, row by row. */
    function Accounts(): (a: seq<Account>)
      reads this, users
      ensures |a| == |users|
      ensures forall i :: 0 <= i < |users| ==> a[i] == users[i].Snapshot()
    {
      seq(|users|, i reads this, users requires 0 <= i < |users| => users[i].Snapshot())
    }

    ghost predicate Valid()
      reads this, users
    {
      WellFormed(Accounts())
    }

    /** Whether `User.query.get(id)` finds a row. */
    predicate HasUser(id: int)
      reads this
    {
      1 <= id <= |users|
    }
  }

  /** Only row `k` of the user table changed, and only its counters. */
  lemma AccountsAfterCounterUpdate(db: Store, before: seq<Account>, k: nat)
    requires |before| == |db.users| && k < |before|
    requires forall i :: 0 <= i < |before| && i != k ==> before[i] == db.users[i].Snapshot()
    requires before[k] == db.users[k].Snapshot().(counters := before[k].counters)
    ensures db.Accounts() == before[k := before[k].(counters := db.users[k].Allowance())]
  {
  }
}
