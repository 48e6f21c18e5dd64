/**
 * The allowance ledger: the two per-user counters `free_uses` and `credits`
 * and every rule of the backend that changes them, as functions on values.
 * The route handlers and the `User` class (models.dfy) are specified by these
 * functions; the lemmas at the end follow a user's counters across any
 * sequence of requests.
 */
module Ledger {

  /** The two allowance pools of one user row. */
  datatype Counters = Counters(freeUses: int, credits: int)

  /** Column defaults of a freshly inserted user. */
  const DefaultFreeUses: int := 2
  const DefaultCredits: int := 0

  /** The refund heuristic puts the unit back into `free_uses` below this value. */
  const RefundFreeUsesBelow: int := 2

  function Total(c: Counters): int
  {
    c.freeUses + c.credits
  }

  predicate NonNegative(c: Counters)
  {
    c.freeUses >= 0 && c.credits >= 0
  }

  /** `User.has_credits`: some unit is left in either pool. */
  predicate HasCredits(c: Counters)
  {
    c.credits > 0 || c.freeUses > 0
  }

  /** Which branch of the analyze route's allowance check was taken. */
  datatype Reservation = ReservedFree | ReservedCredit | Denied

  /**
   * The allowance check in front of an analysis: one unit is taken from the
   * free uses if any is left, otherwise from the credits; with both pools
   * exhausted the request is denied and nothing changes.
   */
  function Reserve(c: Counters): (r: (Reservation, Counters))
    ensures r.0 == ReservedFree <==> c.freeUses > 0
    ensures r.0 == Denied <==> !HasCredits(c)
    ensures r.0 == Denied ==> r.1 == c
    ensures r.0 != Denied ==> Total(r.1) == Total(c) - 1
    ensures r.0 == ReservedFree ==> r.1.credits == c.credits
    ensures r.0 == ReservedCredit ==> r.1.freeUses == c.freeUses && r.1.credits == c.credits - 1
    ensures NonNegative(c) ==> NonNegative(r.1)
  {
    if c.freeUses > 0 then (ReservedFree, c.(freeUses := c.freeUses - 1))
    else if c.credits > 0 then (ReservedCredit, c.(credits := c.credits - 1))
    else (Denied, c)
  }

  /**
   * The compensation after the analysis provider failed: one unit goes back,
   * into `free_uses` when that is below 2 and into `credits` otherwise. The
   * pool is chosen by this heuristic alone, not by the pool that paid.
   */
  function Refund(c: Counters): (r: Counters)
    ensures Total(r) == Total(c) + 1
    ensures r.freeUses == c.freeUses || r.credits == c.credits
    ensures r.freeUses == c.freeUses + 1 <==> c.freeUses < RefundFreeUsesBelow
    ensures NonNegative(c) ==> NonNegative(r)
    ensures c.freeUses <= RefundFreeUsesBelow ==> r.freeUses <= RefundFreeUsesBelow
  {
    if c.freeUses < RefundFreeUsesBelow then c.(freeUses := c.freeUses + 1)
    else c.(credits := c.credits + 1)
  }

  /**
   * The whole effect of one analysis request on the counters of a user who
   * sent an idea: reserve, then refund when the provider failed.
   */
  function Charge(c: Counters, providerOk: bool): (r: (Reservation, Counters))
    ensures r.0 == Reserve(c).0
    ensures r.0 == Denied ==> r.1 == c
    ensures r.0 != Denied && providerOk ==> Total(r.1) == Total(c) - 1
    ensures r.0 != Denied && !providerOk ==> Total(r.1) == Total(c)
    ensures r.0 == ReservedCredit && !providerOk ==> r.1 == Counters(c.freeUses + 1, c.credits - 1)
    ensures NonNegative(c) ==> NonNegative(r.1)
    ensures c.freeUses <= RefundFreeUsesBelow ==> r.1.freeUses <= RefundFreeUsesBelow
  {
    var (kind, reserved) := Reserve(c);
    if kind == Denied || providerOk then (kind, reserved) else (kind, Refund(reserved))
  }

  /**
   * `User.consume_credit`: takes one unit from `credits` before `free_uses`
   * (the opposite order to the analyze route) and does nothing when neither
   * pool is positive.
   */
  function ConsumeCredit(c: Counters): (r: Counters)
    ensures HasCredits(c) ==> Total(r) == Total(c) - 1
    ensures !HasCredits(c) ==> r == c
    ensures r.freeUses == c.freeUses || r.credits == c.credits
    ensures c.credits > 0 ==> r.credits == c.credits - 1
    ensures NonNegative(c) ==> NonNegative(r)
  {
    if c.credits > 0 then c.(credits := c.credits - 1)
    else if c.freeUses > 0 then c.(freeUses := c.freeUses - 1)
    else c
  }

  /** The purchase redemption's increment: any integer amount, no sign check. */
  function Grant(c: Counters, amount: int): (r: Counters)
    ensures Total(r) == Total(c) + amount
    ensures r.freeUses == c.freeUses
    ensures amount >= 0 && NonNegative(c) ==> NonNegative(r)
  {
    c.(credits := c.credits + amount)
  }

  /**
   * `has_credits` means the same thing to both consumers: the route admits a
   * request, and `consume_credit` takes a unit, exactly when it holds.
   */
  lemma ReserveAdmitsIffHasCredits(c: Counters)
    ensures Reserve(c).0 != Denied <==> HasCredits(c)
    ensures ConsumeCredit(c) != c <==> HasCredits(c)
    ensures Reserve(c).0 != Denied <==> ConsumeCredit(c) != c
  {
  }

  /**
   * On non-negative counters `has_credits` holds exactly when some allowance
   * is left; with a negative pool the two part ways.
   */
  lemma HasCreditsIffAllowanceLeft(c: Counters)
    ensures NonNegative(c) ==> (HasCredits(c) <==> Total(c) > 0)
    ensures HasCredits(Counters(1, -5)) && Total(Counters(1, -5)) < 0
  {
  }

  /**
   * The two consumption orders agree except when both pools are positive,
   * where the route spends a free use and `consume_credit` spends a credit.
   */
  lemma ConsumeOrderDiffersFromRoute(c: Counters)
    ensures ConsumeCredit(c) == Reserve(c).1 <==> !(c.freeUses > 0 && c.credits > 0)
  {
  }

  /**
   * The refund undoes the reservation exactly when a free use paid and the
   * free uses were at most 2 before the request; a credit-paid request never
   * gets its credit back.
   */
  lemma RefundUndoesReserveIff(c: Counters)
    requires HasCredits(c)
    ensures Refund(Reserve(c).1) == c <==> Reserve(c).0 == ReservedFree && c.freeUses <= RefundFreeUsesBelow
  {
  }

  /** A free-use-paid request whose free uses were above 2 is refunded into credits. */
  lemma FreeUsePaidRefundIntoCredits()
    ensures Charge(Counters(3, 0), false) == (ReservedFree, Counters(2, 1))
  {
  }

  // ---------------------------------------------------------------------
  // Sequences of requests against one user's counters

  /** One request that touches the counters of a single user. */
  datatype Event =
    | Analysis(providerOk: bool)   // an analyze request carrying an idea
    | Purchase(amount: int)        // a verified purchase redemption
    | ModelConsume                 // a call of User.consume_credit

  function Step(c: Counters, e: Event): Counters
  {
    match e
    case Analysis(ok) => Charge(c, ok).1
    case Purchase(n) => Grant(c, n)
    case ModelConsume => ConsumeCredit(c)
  }

  function Run(c: Counters, evs: seq<Event>): Counters
    decreases |evs|
  {
    if evs == [] then c else Run(Step(c, evs[0]), evs[1..])
  }

  /** The event consumed a unit for good: a completed analysis or a consumption. */
  predicate Consumes(c: Counters, e: Event)
  {
    match e
    case Analysis(ok) => ok && HasCredits(c)
    case Purchase(_) => false
    case ModelConsume => HasCredits(c)
  }

  /** How many events of the run consumed a unit, each judged in the state it met. */
  function Completed(c: Counters, evs: seq<Event>): nat
    decreases |evs|
  {
    if evs == [] then 0
    else (if Consumes(c, evs[0]) then 1 else 0) + Completed(Step(c, evs[0]), evs[1..])
  }

  /** The sum of all purchased amounts in the run. */
  function Granted(evs: seq<Event>): int
    decreases |evs|
  {
    if evs == [] then 0
    else (if evs[0].Purchase? then evs[0].amount else 0) + Granted(evs[1..])
  }

  predicate NoNegativeGrants(evs: seq<Event>)
  {
    forall i :: 0 <= i < |evs| ==> (evs[i].Purchase? ==> evs[i].amount >= 0)
  }

  /**
   * The allowance left equals what was there, plus what was purchased, minus
   * the completed actions: failed analyses cost nothing and denied ones are
   * not charged.
   */
  lemma {:induction false} RunAccounting(c: Counters, evs: seq<Event>)
    ensures Total(Run(c, evs)) == Total(c) + Granted(evs) - Completed(c, evs)
    decreases |evs|
  {
    if evs != [] {
      var c' := Step(c, evs[0]);
      assert Total(c') == Total(c) + (if evs[0].Purchase? then evs[0].amount else 0)
                                   - (if Consumes(c, evs[0]) then 1 else 0);
      RunAccounting(c', evs[1..]);
    }
  }

  /** Without negative purchase amounts, no sequence of requests drives a counter below zero. */
  lemma {:induction false} RunKeepsNonNegative(c: Counters, evs: seq<Event>)
    requires NonNegative(c)
    requires NoNegativeGrants(evs)
    ensures NonNegative(Run(c, evs))
    decreases |evs|
  {
    if evs != [] {
      assert evs[0].Purchase? ==> evs[0].amount >= 0;
      assert NoNegativeGrants(evs[1..]) by {
        forall i | 0 <= i < |evs[1..]|
          ensures evs[1..][i].Purchase? ==> evs[1..][i].amount >= 0
        {
          assert evs[1..][i] == evs[i + 1];
        }
      }
      RunKeepsNonNegative(Step(c, evs[0]), evs[1..]);
    }
  }

  /** Starting from the default, `free_uses` never exceeds 2, whatever the requests. */
  lemma {:induction false} RunKeepsFreeUsesCapped(c: Counters, evs: seq<Event>)
    requires c.freeUses <= RefundFreeUsesBelow
    ensures Run(c, evs).freeUses <= RefundFreeUsesBelow
    decreases |evs|
  {
    if evs != [] {
      RunKeepsFreeUsesCapped(Step(c, evs[0]), evs[1..]);
    }
  }

  /**
   * Hence for every user that started from the defaults, a failed analysis is
   * always refunded into `free_uses`, whichever pool paid for it.
   */
  lemma {:induction false} RefundAfterRunGoesToFreeUses(evs: seq<Event>)
    ensures var c := Run(Counters(DefaultFreeUses, DefaultCredits), evs);
            HasCredits(c) ==> Charge(c, false).1.freeUses == Reserve(c).1.freeUses + 1
                              && Charge(c, false).1.credits == Reserve(c).1.credits
  {
    RunKeepsFreeUsesCapped(Counters(DefaultFreeUses, DefaultCredits), evs);
  }

  /** A negative purchase amount is granted as written and can make `credits` negative. */
  lemma NegativeGrantBreaksNonNegative()
    ensures NonNegative(Counters(2, 0))
    ensures Run(Counters(2, 0), [Purchase(-5)]) == Counters(2, -5)
  {
  }
}
