/**
 * The history route (a read of the caller's ideas, newest first) and the
 * purchase-redemption route that adds credits.
 */
module History {
  import opened Wrappers
  import opened Ledger
  import opened Models
  import opened Helpers
  import opened Analyze

  // ---------------------------------------------------------------------
  // api_history

  /** One entry of the history reply: the Idea's columns except its owner. */
  datatype Entry = Entry(
    id: nat,
    ideaText: string,
    analysis: Option<string>,
    score: Option<int>,
    location: Option<string>,
    createdAt: Timestamp)

  function EntryOf(i: Idea): Entry
  {
    Entry(i.id, i.ideaText, i.analysis, i.score, i.location, i.createdAt)
  }

  function Entries(ideas: seq<Idea>): (es: seq<Entry>)
    ensures |es| == |ideas|
    ensures forall k :: 0 <= k < |ideas| ==> es[k] == EntryOf(ideas[k])
  {
    seq(|ideas|, k requires 0 <= k < |ideas| => EntryOf(ideas[k]))
  }

  /** `filter_by(user_id=...)`: the caller's ideas, each as often as it occurs, and no other. */
  function OwnedBy(ideas: seq<Idea>, userId: int): (r: seq<Idea>)
    ensures forall k :: 0 <= k < |r| ==> r[k].userId == userId
    ensures forall x :: multiset(r)[x] == if x.userId == userId then multiset(ideas)[x] else 0
    decreases |ideas|
  {
    if ideas == [] then []
    else
      assert ideas == [ideas[0]] + ideas[1..];
      (if ideas[0].userId == userId then [ideas[0]] else []) + OwnedBy(ideas[1..], userId)
  }

  predicate NewestFirst(es: seq<Entry>)
  {
    forall i, j :: 0 <= i < j < |es| ==> es[i].createdAt >= es[j].createdAt
  }

  function InsertNewestFirst(e: Entry, es: seq<Entry>): (r: seq<Entry>)
    requires NewestFirst(es)
    ensures NewestFirst(r)
    ensures multiset(r) == multiset(es) + multiset{e}
    ensures |r| == |es| + 1
    ensures r != [] && (r[0] == e || (es != [] && r[0] == es[0]))
    decreases |es|
  {
    if es == [] || e.createdAt >= es[0].createdAt then [e] + es
    else
      assert es == [es[0]] + es[1..];
      [es[0]] + InsertNewestFirst(e, es[1..])
  }

  /** `order_by(created_at.desc())`: a reordering of the entries, newest first. */
  function SortNewestFirst(es: seq<Entry>): (r: seq<Entry>)
    ensures NewestFirst(r)
    ensures multiset(r) == multiset(es)
    decreases |es|
  {
    if es == [] then []
    else
      assert es == [es[0]] + es[1..];
      InsertNewestFirst(es[0], SortNewestFirst(es[1..]))
  }

  /**
   * `api_history`: the caller's ideas, newest first. Entries with equal
   * creation times may come in any order; the model fixes one.
   */
  function ApiHistory(ideas: seq<Idea>, userId: int): (out: seq<Entry>)
    ensures NewestFirst(out)
    ensures multiset(out) == multiset(Entries(OwnedBy(ideas, userId)))
  {
    SortNewestFirst(Entries(OwnedBy(ideas, userId)))
  }

  /** An entry is in the history exactly when it is the entry of one of the caller's ideas. */
  lemma HistoryMembership(ideas: seq<Idea>, userId: int, e: Entry)
    ensures e in ApiHistory(ideas, userId) <==>
            exists k :: 0 <= k < |ideas| && ideas[k].userId == userId && EntryOf(ideas[k]) == e
  {
    var owned := OwnedBy(ideas, userId);
    var out := ApiHistory(ideas, userId);
    assert e in out <==> e in multiset(out);
    assert e in out <==> e in Entries(owned);
    if e in out {
      var j :| 0 <= j < |owned| && EntryOf(owned[j]) == e;
      assert owned[j] in multiset(owned);
      assert multiset(ideas)[owned[j]] > 0;
      assert owned[j] in ideas;
      var k :| 0 <= k < |ideas| && ideas[k] == owned[j];
      assert ideas[k].userId == userId && EntryOf(ideas[k]) == e;
    }
    if exists k :: 0 <= k < |ideas| && ideas[k].userId == userId && EntryOf(ideas[k]) == e {
      var k :| 0 <= k < |ideas| && ideas[k].userId == userId && EntryOf(ideas[k]) == e;
      assert ideas[k] in multiset(ideas);
      assert multiset(owned)[ideas[k]] > 0;
      assert ideas[k] in owned;
      var j :| 0 <= j < |owned| && owned[j] == ideas[k];
      assert Entries(owned)[j] == e;
    }
  }

  lemma ConcatAssociates<T>(a: seq<T>, b: seq<T>, c: seq<T>)
    ensures a + (b + c) == (a + b) + c
  {
  }

  /** Filtering a table with one more row at the end filters that row last. */
  lemma {:induction false} OwnedByAppend(ideas: seq<Idea>, record: Idea, userId: int)
    ensures OwnedBy(ideas + [record], userId)
            == OwnedBy(ideas, userId) + (if record.userId == userId then [record] else [])
    decreases |ideas|
  {
    var last := if record.userId == userId then [record] else [];
    if ideas == [] {
      assert ideas + [record] == [record];
      assert OwnedBy([record], userId) == last + OwnedBy([], userId);
    } else {
      var rest := ideas[1..];
      var first := if ideas[0].userId == userId then [ideas[0]] else [];
      assert (ideas + [record])[0] == ideas[0];
      assert (ideas + [record])[1..] == rest + [record];
      assert OwnedBy(ideas + [record], userId) == first + OwnedBy(rest + [record], userId);
      assert OwnedBy(ideas, userId) == first + OwnedBy(rest, userId);
      OwnedByAppend(rest, record, userId);
      ConcatAssociates(first, OwnedBy(rest, userId), last);
    }
  }

  /** Appending an idea adds its entry to its owner's history. */
  lemma AppendedIdeaInOwnHistory(ideas: seq<Idea>, record: Idea)
    ensures EntryOf(record) in ApiHistory(ideas + [record], record.userId)
  {
    var after := ideas + [record];
    var k := |ideas|;
    assert 0 <= k < |after| && after[k].userId == record.userId && EntryOf(after[k]) == EntryOf(record);
    HistoryMembership(after, record.userId, EntryOf(record));
  }

  /** Appending an idea leaves the history of every other user exactly as it was. */
  lemma AppendedIdeaLeavesOthers(ideas: seq<Idea>, record: Idea, other: int)
    requires other != record.userId
    ensures ApiHistory(ideas + [record], other) == ApiHistory(ideas, other)
  {
    OwnedByAppend(ideas, record, other);
    assert OwnedBy(ideas + [record], other) == OwnedBy(ideas, other) + [];
    assert OwnedBy(ideas, other) + [] == OwnedBy(ideas, other);
  }

  /**
   * A recorded analysis shows up in the caller's history: the entry of the
   * Idea the analyze route appends is one of the history's entries, and the
   * history of every other user is unchanged.
   */
  lemma AnalyzedIdeaInHistory(accounts: seq<Account>, ideas: seq<Idea>, callerId: int, idea: Option<string>,
                              location: Option<string>, provider: ProviderReply, now: Timestamp, other: int)
    requires WellFormed(accounts)
    requires AnalyzeSpec(accounts, ideas, callerId, idea, location, provider, now).reply.Analyzed?
    requires other != callerId
    ensures var r := AnalyzeSpec(accounts, ideas, callerId, idea, location, provider, now);
            && EntryOf(IdeaFor(ideas, accounts[callerId - 1], idea.value, location, r.reply.analysis, now))
               in ApiHistory(r.ideas, callerId)
            && ApiHistory(r.ideas, other) == ApiHistory(ideas, other)
  {
    var r := AnalyzeSpec(accounts, ideas, callerId, idea, location, provider, now);
    var record := IdeaFor(ideas, accounts[callerId - 1], idea.value, location, r.reply.analysis, now);
    assert r.ideas == ideas + [record];
    assert record.userId == callerId by {
      assert accounts[callerId - 1].id == callerId;
    }
    AppendedIdeaInOwnHistory(ideas, record);
    AppendedIdeaLeavesOthers(ideas, record, other);
  }

  // ---------------------------------------------------------------------
  // api_add_credits

  /** The `creditsAmount` field as `int(...)` sees it. */
  datatype AmountField =
    | AmountAbsent             // the field is missing: the default 1
    | AmountParsed(n: int)     // `int(...)` succeeded with this value
    | AmountUnparsable         // `int(...)` raised

  datatype CreditsReply =
    | CreditsAdded(credits: int)
    | FieldsRequired
    | PurchaseNotVerified
    | ServerError              // an unhandled exception
  {
    function Status(): nat
    {
      match this
      case CreditsAdded(_) => 200
      case FieldsRequired => 400
      case PurchaseNotVerified => 400
      case ServerError => 500
    }
  }

  predicate PurchaseFieldsPresent(packageName: Option<string>, productId: Option<string>, purchaseToken: Option<string>)
  {
    Truthy(packageName) && Truthy(productId) && Truthy(purchaseToken)
  }

  function AmountOf(amount: AmountField): int
    requires !amount.AmountUnparsable?
  {
    if amount.AmountAbsent? then 1 else amount.n
  }

  /** `api_add_credits` on the user table as values. */
  function AddCreditsSpec(accounts: seq<Account>, callerId: int, packageName: Option<string>,
                          productId: Option<string>, purchaseToken: Option<string>,
                          amount: AmountField, env: Environment): (r: (CreditsReply, seq<Account>))
    ensures |r.1| == |accounts|
    ensures !r.0.CreditsAdded? ==> r.1 == accounts
    ensures amount.AmountUnparsable? ==> r.0 == ServerError
    ensures (!amount.AmountUnparsable? && !PurchaseFieldsPresent(packageName, productId, purchaseToken))
            ==> r.0 == FieldsRequired
    ensures (!amount.AmountUnparsable? && PurchaseFieldsPresent(packageName, productId, purchaseToken)
             && env.allowFakePurchases != Some("1"))
            ==> r.0 == PurchaseNotVerified
    ensures r.0.CreditsAdded? <==>
              && !amount.AmountUnparsable?
              && PurchaseFieldsPresent(packageName, productId, purchaseToken)
              && env.allowFakePurchases == Some("1")
              && 1 <= callerId <= |accounts|
    ensures r.0.CreditsAdded? ==>
              var k := callerId - 1;
              && r.1[k].counters.credits == accounts[k].counters.credits + AmountOf(amount)
              && r.1[k].counters.freeUses == accounts[k].counters.freeUses
              && r.1 == accounts[k := accounts[k].(counters := r.1[k].counters)]
              && r.0.credits == r.1[k].counters.credits
    ensures WellFormed(accounts) ==> WellFormed(r.1)
  {
    if amount.AmountUnparsable? then (ServerError, accounts)
    else if !PurchaseFieldsPresent(packageName, productId, purchaseToken) then (FieldsRequired, accounts)
    else if !VerifyPlayPurchase(env, packageName.value, productId.value, purchaseToken.value) then (PurchaseNotVerified, accounts)
    else if !(1 <= callerId <= |accounts|) then (ServerError, accounts)
    else
      var k := callerId - 1;
      var granted := Grant(accounts[k].counters, AmountOf(amount));
      (CreditsAdded(granted.credits), accounts[k := accounts[k].(counters := granted)])
  }

  /**
   * The status code of every outcome: 500 when the amount does not parse or
   * the caller's row is missing, 400 for missing fields or an unverified
   * purchase, and 200 exactly when the credits were added.
   */
  lemma AddCreditsStatusCodes(accounts: seq<Account>, callerId: int, packageName: Option<string>,
                              productId: Option<string>, purchaseToken: Option<string>,
                              amount: AmountField, env: Environment)
    ensures var r := AddCreditsSpec(accounts, callerId, packageName, productId, purchaseToken, amount, env);
            && (r.0.Status() == 200 <==> r.0.CreditsAdded?)
            && (r.0.Status() == 400 <==>
                  !amount.AmountUnparsable?
                  && (!PurchaseFieldsPresent(packageName, productId, purchaseToken)
                      || env.allowFakePurchases != Some("1")))
            && (r.0.Status() == 500 <==>
                  amount.AmountUnparsable?
                  || (PurchaseFieldsPresent(packageName, productId, purchaseToken)
                      && env.allowFakePurchases == Some("1") && !(1 <= callerId <= |accounts|)))
  {
    var r := AddCreditsSpec(accounts, callerId, packageName, productId, purchaseToken, amount, env);
    if !amount.AmountUnparsable? && PurchaseFieldsPresent(packageName, productId, purchaseToken)
       && env.allowFakePurchases == Some("1") && !(1 <= callerId <= |accounts|) {
      assert r.0 == ServerError;
    }
  }

  /**
   * Nothing records a redeemed token: replaying an accepted redemption with
   * the same fields is accepted again and grants the amount a second time.
   */
  lemma ReplayGrantsAgain(accounts: seq<Account>, callerId: int, packageName: Option<string>,
                          productId: Option<string>, purchaseToken: Option<string>,
                          amount: AmountField, env: Environment)
    requires AddCreditsSpec(accounts, callerId, packageName, productId, purchaseToken, amount, env).0.CreditsAdded?
    ensures var once := AddCreditsSpec(accounts, callerId, packageName, productId, purchaseToken, amount, env);
            var twice := AddCreditsSpec(once.1, callerId, packageName, productId, purchaseToken, amount, env);
            && twice.0.CreditsAdded?
            && twice.0.credits == accounts[callerId - 1].counters.credits + 2 * AmountOf(amount)
  {
  }

  /** A negative amount is accepted as written and takes credits away, below zero if need be. */
  lemma NegativeAmountAccepted(accounts: seq<Account>, packageName: Option<string>,
                               productId: Option<string>, purchaseToken: Option<string>, env: Environment)
    requires |accounts| >= 1 && accounts[0].counters == Counters(2, 0)
    requires PurchaseFieldsPresent(packageName, productId, purchaseToken)
    requires env.allowFakePurchases == Some("1")
    ensures var r := AddCreditsSpec(accounts, 1, packageName, productId, purchaseToken, AmountParsed(-5), env);
            r.0 == CreditsAdded(-5) && !NonNegative(r.1[0].counters)
  {
    var r := AddCreditsSpec(accounts, 1, packageName, productId, purchaseToken, AmountParsed(-5), env);
    assert r.0.CreditsAdded?;
    assert r.1[0].counters == Counters(2, -5);
  }

  /** `api_add_credits`: adds the amount to the caller's credits in place. */
  method ApiAddCredits(db: Store, callerId: int, packageName: Option<string>, productId: Option<string>,
                       purchaseToken: Option<string>, amount: AmountField, env: Environment)
    returns (reply: CreditsReply)
    requires db.Valid()
    modifies db.users
    ensures db.Valid()
    ensures (reply, db.Accounts()) ==
            AddCreditsSpec(old(db.Accounts()), callerId, packageName, productId, purchaseToken, amount, env)
  {
    ghost var before := db.Accounts();
    var user := if db.HasUser(callerId) then Some(db.users[callerId - 1]) else None;
    var credits: int;
    match amount {
      case AmountUnparsable => return ServerError;
      case AmountAbsent => credits := 1;
      case AmountParsed(n) => credits := n;
    }
    if !PurchaseFieldsPresent(packageName, productId, purchaseToken) {
      return FieldsRequired;
    }
    var verified := VerifyPlayPurchase(env, packageName.value, productId.value, purchaseToken.value);
    if !verified {
      return PurchaseNotVerified;
    }
    if user.None? {
      // `user.credits` on a missing user raises
      return ServerError;
    }
    var u := user.value;
    u.credits := u.credits + credits;
    AccountsAfterCounterUpdate(db, before, callerId - 1);
    reply := CreditsAdded(u.credits);
  }
}
