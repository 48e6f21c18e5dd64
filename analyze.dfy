/**
 * The analyze route: request validation, the allowance check, the call to
 * the analysis provider (an oracle here), the refund when it fails, score
 * extraction from the analysis text, and the insertion of the Idea record.
 */
module Analyze {
  import opened Wrappers
  import opened Ledger
  import opened Models

  // ---------------------------------------------------------------------
  // Score extraction

  /** `str.isdigit`, restricted to the ASCII digits. */
  predicate IsDigit(ch: char)
  {
    '0' <= ch <= '9'
  }

  predicate AllDigits(s: string)
  {
    forall i :: 0 <= i < |s| ==> IsDigit(s[i])
  }

  predicate NoDigit(s: string)
  {
    forall i :: 0 <= i < |s| ==> !IsDigit(s[i])
  }

  /** Every digit of the text, in order: the list comprehension over its characters. */
  function Digits(s: string): (r: string)
    ensures |r| <= |s|
    ensures AllDigits(r)
    ensures r == [] <==> NoDigit(s)
    decreases |s|
  {
    if s == [] then []
    else (if IsDigit(s[0]) then [s[0]] else []) + Digits(s[1..])
  }

  /** Every digit of the text is kept, as often as it occurs, and nothing else. */
  lemma {:induction false} DigitsKeepEveryDigit(s: string, ch: char)
    ensures multiset(Digits(s))[ch] == if IsDigit(ch) then multiset(s)[ch] else 0
    decreases |s|
  {
    if s != [] {
      assert s == [s[0]] + s[1..];
      DigitsKeepEveryDigit(s[1..], ch);
    }
  }

  function Pow10(n: nat): (p: nat)
    ensures p >= 1
  {
    if n == 0 then 1 else 10 * Pow10(n - 1)
  }

  /** `int(ds)` for a string of decimal digits (leading zeros allowed). */
  function DecimalValue(ds: string): (n: nat)
    requires AllDigits(ds)
    ensures n < Pow10(|ds|)
    decreases |ds|
  {
    if ds == [] then 0
    else
      var init := ds[..|ds| - 1];
      var d := (ds[|ds| - 1] as int) - ('0' as int);
      assert AllDigits(init);
      var v := DecimalValue(init);
      assert v <= Pow10(|init|) - 1;
      assert 10 * v + d <= 10 * (Pow10(|init|) - 1) + 9;
      10 * v + d
  }

  function Min(a: int, b: int): int
  {
    if a <= b then a else b
  }

  /**
   * The score of an analysis text: the value of the first three of all its
   * digits taken together, or none when the text holds no digit. Nothing
   * clamps it to the 0-100 range the prompt asks for.
   */
  function ExtractScore(analysis: string): (score: Option<int>)
    ensures score.None? <==> NoDigit(analysis)
    ensures score.Some? ==> 0 <= score.value <= 999
  {
    var digits := Digits(analysis);
    if digits == [] then None
    else
      var head := digits[..Min(3, |digits|)];
      assert AllDigits(head);
      assert Pow10(|head|) <= 1000 by {
        assert Pow10(3) == 1000;
        assert |head| == 1 || |head| == 2 || |head| == 3;
      }
      Some(DecimalValue(head))
  }

  /** Removing every character that is not a digit changes nothing further. */
  lemma {:induction false} DigitsIdempotent(s: string)
    ensures Digits(Digits(s)) == Digits(s)
    decreases |s|
  {
    if s != [] {
      DigitsIdempotent(s[1..]);
      DigitsConcat(if IsDigit(s[0]) then [s[0]] else [], Digits(s[1..]));
    }
  }

  /** Digits of a concatenation are the concatenation of the digits. */
  lemma {:induction false} DigitsConcat(s: string, t: string)
    ensures Digits(s + t) == Digits(s) + Digits(t)
    decreases |s|
  {
    if s != [] {
      var head := if IsDigit(s[0]) then [s[0]] else [];
      assert (s + t)[0] == s[0];
      assert (s + t)[1..] == s[1..] + t;
      assert Digits(s + t) == head + Digits(s[1..] + t);
      DigitsConcat(s[1..], t);
      assert head + (Digits(s[1..]) + Digits(t)) == (head + Digits(s[1..])) + Digits(t);
    } else {
      assert s + t == t;
    }
  }

  /** Only the digits of the analysis matter to its score. */
  lemma ScoreIgnoresNonDigits(s: string)
    ensures ExtractScore(s) == ExtractScore(Digits(s))
  {
    DigitsIdempotent(s);
  }

  /** Once the text holds three digits, nothing after them changes the score. */
  lemma ScoreFixedByFirstThreeDigits(s: string, t: string)
    requires |Digits(s)| >= 3
    ensures ExtractScore(s + t) == ExtractScore(s)
  {
    DigitsConcat(s, t);
    var digits := Digits(s);
    assert (digits + Digits(t))[..3] == digits[..3];
    ScoreOfLeadingDigits(s, digits);
    ScoreOfLeadingDigits(s + t, digits + Digits(t));
  }

  /** A string of digits is its own digit list. */
  lemma {:induction false} DigitsOfDigitString(s: string)
    requires AllDigits(s)
    ensures Digits(s) == s
    decreases |s|
  {
    if s != [] {
      assert AllDigits(s[1..]) by {
        forall i | 0 <= i < |s[1..]| ensures IsDigit(s[1..][i]) {
          assert s[1..][i] == s[i + 1];
        }
      }
      DigitsOfDigitString(s[1..]);
    }
  }

  /** The digits of "/100" are "100". */
  lemma DigitsOfOutOfHundred()
    ensures Digits("/100") == "100"
  {
    DigitsConcat("/", "100");
    assert "/" + "100" == "/100";
    DigitsOfDigitString("100");
  }

  /** Appending a digit multiplies the value by ten and adds the digit. */
  lemma DecimalValueSnoc(ds: string, d: char)
    requires AllDigits(ds) && IsDigit(d)
    ensures AllDigits(ds + [d])
    ensures DecimalValue(ds + [d]) == 10 * DecimalValue(ds) + ((d as int) - ('0' as int))
  {
    assert (ds + [d])[..|ds|] == ds;
  }

  /** The digits of a reply ending in "NN/100" with no digit before NN. */
  lemma DigitsOfOutOfHundredReply(prefix: string, score: string)
    requires NoDigit(prefix)
    requires AllDigits(score)
    ensures Digits(prefix + score + "/100") == score + "100"
  {
    DigitsConcat(prefix + score, "/100");
    DigitsConcat(prefix, score);
    DigitsOfDigitString(score);
    DigitsOfOutOfHundred();
  }

  /**
   * The score of a text with at least one digit is the value of its first
   * three digits, or of all of them when it holds fewer than three.
   */
  lemma ScoreOfLeadingDigits(s: string, digits: string)
    requires Digits(s) == digits && |digits| >= 1
    ensures AllDigits(digits[..Min(3, |digits|)])
    ensures ExtractScore(s) == Some(DecimalValue(digits[..Min(3, |digits|)]))
  {
  }

  /**
   * A text holding a single number of one to three digits scores that
   * number: "Viability score: 85. Strong demand." scores 85.
   */
  lemma ScoreOfLoneNumber(prefix: string, number: string, suffix: string)
    requires NoDigit(prefix) && NoDigit(suffix)
    requires 1 <= |number| <= 3 && AllDigits(number)
    ensures ExtractScore(prefix + number + suffix) == Some(DecimalValue(number))
  {
    DigitsOfLoneNumber(prefix, number, suffix);
    ScoreOfLeadingDigits(prefix + number + suffix, number);
    assert number[..Min(3, |number|)] == number;
  }

  /** The digits of a text holding a single number are that number. */
  lemma DigitsOfLoneNumber(prefix: string, number: string, suffix: string)
    requires NoDigit(prefix) && NoDigit(suffix) && AllDigits(number)
    ensures Digits(prefix + number + suffix) == number
  {
    DigitsConcat(prefix + number, suffix);
    DigitsConcat(prefix, number);
    DigitsOfDigitString(number);
    assert Digits(prefix) == [] && Digits(suffix) == [];
    assert [] + number + [] == number;
  }

  /**
   * A reply that states its score in the requested "NN/100" form scores
   * ten times NN plus one: "Score: 85/100" scores 851.
   */
  lemma ScoreOfOutOfHundredReply(prefix: string, score: string)
    requires NoDigit(prefix)
    requires |score| == 2 && AllDigits(score)
    ensures ExtractScore(prefix + score + "/100") == Some(10 * DecimalValue(score) + 1)
  {
    var digits := score + "100";
    DigitsOfOutOfHundredReply(prefix, score);
    ScoreOfLeadingDigits(prefix + score + "/100", digits);
    assert digits[..3] == score + ['1'];
    DecimalValueSnoc(score, '1');
  }

  // ---------------------------------------------------------------------
  // The route

  /** The location an idea is filed under: the request's, else the user's, else "global". */
  function ResolveLocation(requested: Option<string>, stored: Option<string>): (loc: string)
    ensures loc != ""
    ensures Truthy(requested) ==> loc == requested.value
    ensures !Truthy(requested) && Truthy(stored) ==> loc == stored.value
    ensures !Truthy(requested) && !Truthy(stored) ==> loc == "global"
  {
    if Truthy(requested) then requested.value
    else if Truthy(stored) then stored.value
    else "global"
  }

  /** What the analysis provider answered, already stripped of surrounding whitespace. */
  datatype ProviderReply = ProviderOk(content: string) | ProviderFailed(details: string)

  datatype AnalyzeReply =
    | UserNotFound
    | IdeaRequired
    | PaymentRequired
    | ProviderError(details: string)
    | Analyzed(analysis: string, score: Option<int>, freeUses: int, credits: int)
  {
    function Status(): nat
    {
      match this
      case UserNotFound => 404
      case IdeaRequired => 400
      case PaymentRequired => 402
      case ProviderError(_) => 500
      case Analyzed(_, _, _, _) => 200
    }
  }

  datatype AnalyzeResult = AnalyzeResult(reply: AnalyzeReply, accounts: seq<Account>, ideas: seq<Idea>)

  /** The Idea record a successful analysis inserts. */
  function IdeaFor(ideas: seq<Idea>, a: Account, ideaText: string, requestedLocation: Option<string>,
                   analysis: string, now: Timestamp): (i: Idea)
    ensures i.userId == a.id && i.ideaText == ideaText && i.analysis == Some(analysis)
    ensures i.score == ExtractScore(analysis) && i.id == |ideas| + 1
    ensures i.location == Some(ResolveLocation(requestedLocation, a.location))
  {
    Idea(|ideas| + 1, a.id, ideaText, Some(analysis), ExtractScore(analysis),
         Some(ResolveLocation(requestedLocation, a.location)), now)
  }

  /** `api_analyze` on the two tables as values. */
  function AnalyzeSpec(accounts: seq<Account>, ideas: seq<Idea>, callerId: int, idea: Option<string>,
                       location: Option<string>, provider: ProviderReply, now: Timestamp): (r: AnalyzeResult)
    ensures |r.accounts| == |accounts|
    ensures !(1 <= callerId <= |accounts|) ==> r == AnalyzeResult(UserNotFound, accounts, ideas)
    ensures 1 <= callerId <= |accounts| && !Truthy(idea) ==> r == AnalyzeResult(IdeaRequired, accounts, ideas)
    ensures 1 <= callerId <= |accounts| && Truthy(idea) && !HasCredits(accounts[callerId - 1].counters)
            ==> r == AnalyzeResult(PaymentRequired, accounts, ideas)
    ensures forall i :: 0 <= i < |accounts| && i != callerId - 1 ==> r.accounts[i] == accounts[i]
    ensures forall i :: 0 <= i < |accounts| ==> r.accounts[i] == accounts[i].(counters := r.accounts[i].counters)
    ensures r.reply.Analyzed? || r.reply.ProviderError? <==>
              1 <= callerId <= |accounts| && Truthy(idea) && HasCredits(accounts[callerId - 1].counters)
    ensures r.reply.Analyzed? <==> r.ideas != ideas
    ensures r.reply.Analyzed? ==>
              var k := callerId - 1;
              && provider == ProviderOk(r.reply.analysis)
              && Total(r.accounts[k].counters) == Total(accounts[k].counters) - 1
              && r.accounts[k].counters == Reserve(accounts[k].counters).1
              && r.accounts[k].counters == Counters(r.reply.freeUses, r.reply.credits)
              && r.reply.score == ExtractScore(r.reply.analysis)
              && r.ideas == ideas + [IdeaFor(ideas, accounts[k], idea.value, location, r.reply.analysis, now)]
    ensures r.reply.ProviderError? ==>
              var k := callerId - 1;
              && provider == ProviderFailed(r.reply.details)
              && Total(r.accounts[k].counters) == Total(accounts[k].counters)
              && r.accounts[k].counters == Refund(Reserve(accounts[k].counters).1)
    ensures WellFormed(accounts) ==> WellFormed(r.accounts)
    ensures forall i :: 0 <= i < |accounts| && NonNegative(accounts[i].counters) ==> NonNegative(r.accounts[i].counters)
  {
    if !(1 <= callerId <= |accounts|) then AnalyzeResult(UserNotFound, accounts, ideas)
    else
      var k := callerId - 1;
      var a := accounts[k];
      if !Truthy(idea) then AnalyzeResult(IdeaRequired, accounts, ideas)
      else
        var (kind, reserved) := Reserve(a.counters);
        if kind == Denied then AnalyzeResult(PaymentRequired, accounts, ideas)
        else match provider
          case ProviderFailed(details) =>
            AnalyzeResult(ProviderError(details), accounts[k := a.(counters := Refund(reserved))], ideas)
          case ProviderOk(text) =>
            var record := IdeaFor(ideas, a, idea.value, location, text, now);
            assert ideas + [record] != ideas by { assert |ideas + [record]| != |ideas|; }
            AnalyzeResult(Analyzed(text, record.score, reserved.freeUses, reserved.credits),
                          accounts[k := a.(counters := reserved)], ideas + [record])
  }

  /**
   * The status code of every outcome: 404 for an unknown user, 400 for a
   * missing idea, 402 without allowance, 500 when the provider failed and
   * 200 when the analysis was recorded.
   */
  lemma AnalyzeStatusCodes(accounts: seq<Account>, ideas: seq<Idea>, callerId: int, idea: Option<string>,
                           location: Option<string>, provider: ProviderReply, now: Timestamp)
    ensures var r := AnalyzeSpec(accounts, ideas, callerId, idea, location, provider, now);
            && (r.reply.Status() == 404 <==> !(1 <= callerId <= |accounts|))
            && (r.reply.Status() == 400 <==> 1 <= callerId <= |accounts| && !Truthy(idea))
            && (r.reply.Status() == 402 <==>
                  1 <= callerId <= |accounts| && Truthy(idea) && !HasCredits(accounts[callerId - 1].counters))
            && (r.reply.Status() == 500 <==>
                  1 <= callerId <= |accounts| && Truthy(idea) && HasCredits(accounts[callerId - 1].counters)
                  && provider.ProviderFailed?)
            && (r.reply.Status() == 200 <==>
                  1 <= callerId <= |accounts| && Truthy(idea) && HasCredits(accounts[callerId - 1].counters)
                  && provider.ProviderOk?)
  {
    var r := AnalyzeSpec(accounts, ideas, callerId, idea, location, provider, now);
    if 1 <= callerId <= |accounts| && Truthy(idea) && HasCredits(accounts[callerId - 1].counters) {
      assert r.reply.Analyzed? || r.reply.ProviderError?;
      assert r.reply.Analyzed? <==> provider.ProviderOk?;
    }
  }

  /** The allowance check of the route, on the user object in place. */
  method ReserveAllowance(user: User) returns (kind: Reservation)
    modifies user`freeUses, user`credits
    ensures (kind, user.Allowance()) == Reserve(old(user.Allowance()))
  {
    if user.freeUses > 0 {
      user.freeUses := user.freeUses - 1;
      kind := ReservedFree;
    } else if user.credits > 0 {
      user.credits := user.credits - 1;
      kind := ReservedCredit;
    } else {
      kind := Denied;
    }
  }

  /** The route's compensation when the provider failed, on the user object in place. */
  method RefundAllowance(user: User)
    modifies user`freeUses, user`credits
    ensures user.Allowance() == Refund(old(user.Allowance()))
  {
    if user.freeUses < RefundFreeUsesBelow {
      user.freeUses := user.freeUses + 1;
    } else {
      user.credits := user.credits + 1;
    }
  }

  /** `api_analyze`: updates the caller's counters in place and appends the Idea on success. */
  method ApiAnalyze(db: Store, callerId: int, idea: Option<string>, location: Option<string>,
                    provider: ProviderReply, now: Timestamp) returns (reply: AnalyzeReply)
    requires db.Valid()
    modifies db, db.users
    ensures db.Valid() && db.users == old(db.users)
    ensures var r := AnalyzeSpec(old(db.Accounts()), old(db.ideas), callerId, idea, location, provider, now);
            reply == r.reply && db.Accounts() == r.accounts && db.ideas == r.ideas
  {
    ghost var before := db.Accounts();
    ghost var spec := AnalyzeSpec(before, db.ideas, callerId, idea, location, provider, now);
    if !db.HasUser(callerId) {
      return UserNotFound;
    }
    var k := callerId - 1;
    var user := db.users[k];
    var loc := ResolveLocation(location, user.location);
    if !Truthy(idea) {
      return IdeaRequired;
    }
    var kind := ReserveAllowance(user);
    if kind == Denied {
      return PaymentRequired;
    }
    match provider {
      case ProviderFailed(details) =>
        // the failed analysis gives its unit back
        RefundAllowance(user);
        AccountsAfterCounterUpdate(db, before, k);
        return ProviderError(details);
      case ProviderOk(text) =>
        var score := ExtractScore(text);
        db.ideas := db.ideas + [Idea(|db.ideas| + 1, user.id, idea.value, Some(text), score, Some(loc), now)];
        reply := Analyzed(text, score, user.freeUses, user.credits);
        AccountsAfterCounterUpdate(db, before, k);
    }
  }
}
