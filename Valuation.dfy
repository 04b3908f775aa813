/**
  The tier of a user and the money revaluation rule that `User.CalculateMoney`
  applies to the balance a user brings in at admission time.

  Money is exact: C# `decimal` becomes Dafny `real`, so every asserted
  value (123.20, 162, 100, 240, 1200) is an exact equality.
*/
module Valuation {

  /** The closed set of user tiers (the `UserType` enumeration). */
  datatype Tier = Normal | SuperUser | Premium

  /**
    The fraction of the current balance that is added to it as a gift.

    Five points of this table are fixed by assertions: Normal 110 -> 12%,
    Normal 90 -> 80%, Normal 100 -> 0%, SuperUser 200 -> 20%,
    Premium 400 -> 200%. Outside those points the bands below are a
    modelling choice: Normal uses 12% strictly above 100, 80% strictly
    below 100 and nothing at exactly 100; SuperUser and Premium use one
    rate at every balance.
  */
  function GiftRate(tier: Tier, money: real): (rate: real)
    ensures 0.0 <= rate <= 2.0
  {
    match tier
    case Normal =>
      if money > 100.0 then 0.12
      else if money < 100.0 then 0.8
      else 0.0
    case SuperUser => 0.2
    case Premium => 2.0
  }

  /**
    The balance after revaluation: the current balance plus its gift.
    A revaluation never moves a balance towards zero and at most triples it.
  */
  function Revalue(tier: Tier, money: real): (r: real)
    ensures money >= 0.0 ==> money <= r <= 3.0 * money
    ensures money <= 0.0 ==> 3.0 * money <= r <= money
  {
    money + money * GiftRate(tier, money)
  }

  // The five asserted revaluations.

  lemma NormalAboveHundred()
    ensures Revalue(Normal, 110.0) == 123.2
  {}

  lemma NormalBelowHundred()
    ensures Revalue(Normal, 90.0) == 162.0
    ensures Revalue(Normal, 90.0) != 97.2
  {}

  lemma NormalAtHundred()
    ensures Revalue(Normal, 100.0) == 100.0
    ensures Revalue(Normal, 100.0) != 100.0 * 1.08
  {}

  lemma SuperUserTwoHundred()
    ensures Revalue(SuperUser, 200.0) == 240.0
  {}

  lemma PremiumFourHundred()
    ensures Revalue(Premium, 400.0) == 1200.0
  {}

  /** Under the chosen bands, a positive balance grows, except a Normal balance of exactly 100. */
  lemma RevalueGrowsPositive(tier: Tier, money: real)
    requires money > 0.0
    ensures Revalue(tier, money) > money <==> !(tier == Normal && money == 100.0)
  {}

  /**
    The Normal rule is not monotone: the asserted balance of 90 ends above the
    asserted revalued balance of exactly 100.
  */
  lemma NormalNotMonotoneAtHundred()
    ensures Revalue(Normal, 90.0) > Revalue(Normal, 100.0)
  {}
}
