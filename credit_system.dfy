// The civic-credit panel: shown to signed-in citizens only, it classifies
// the user's credit total into a tier by fixed thresholds.

module CreditSystem {
  import opened Types

  datatype CreditLevel = NewCitizen | BronzeCitizen | SilverCitizen | GoldCitizen

  /** The order of the tiers, lowest first. */
  function Rank(level: CreditLevel): nat
  {
    match level
    case NewCitizen => 0
    case BronzeCitizen => 1
    case SilverCitizen => 2
    case GoldCitizen => 3
  }

  /** The fewest credits that reach a tier (`NewCitizen` has no lower bound). */
  function Threshold(level: CreditLevel): Option<int>
  {
    match level
    case NewCitizen => None
    case BronzeCitizen => Some(100)
    case SilverCitizen => Some(250)
    case GoldCitizen => Some(500)
  }

  /** The tier a credit total earns. */
  function GetCreditLevel(credits: int): (level: CreditLevel)
    ensures level == GoldCitizen <==> credits >= 500
    ensures level == SilverCitizen <==> 250 <= credits < 500
    ensures level == BronzeCitizen <==> 100 <= credits < 250
    ensures level == NewCitizen <==> credits < 100
  {
    if credits >= 500 then GoldCitizen
    else if credits >= 250 then SilverCitizen
    else if credits >= 100 then BronzeCitizen
    else NewCitizen
  }

  /**
   * The tier is the highest one whose threshold the credits reach: every
   * tier up to it is reached and no tier above it is.
   */
  lemma LevelIsHighestReached(credits: int, level: CreditLevel)
    ensures Threshold(level).Some? ==>
              (Rank(level) <= Rank(GetCreditLevel(credits)) <==> credits >= Threshold(level).value)
  {
  }

  /** More credits never give a lower tier. */
  lemma LevelMonotone(a: int, b: int)
    requires a <= b
    ensures Rank(GetCreditLevel(a)) <= Rank(GetCreditLevel(b))
  {
  }

  /** The credits a citizen account is created with. */
  const SeedCredits: int := 100

  /** A newly registered citizen starts as a Bronze citizen. */
  lemma SeedIsBronze()
    ensures GetCreditLevel(SeedCredits) == BronzeCitizen
  {
  }

  /** The panel: nothing unless a citizen is signed in, else that user's tier. */
  function CreditPanel(user: Option<User>): (shown: Option<CreditLevel>)
    ensures shown.Some? <==> user.Some? && user.value.role == Citizen
    ensures shown.Some? ==> shown.value == GetCreditLevel(user.value.credits)
  {
    if user.None? || user.value.role != Citizen then None
    else Some(GetCreditLevel(user.value.credits))
  }
}
