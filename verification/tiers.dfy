/** Subscription tiers. The account store gives every new user a tier, and
    the scanner page lets the user choose the tier the analysis runs at. */
module Tiers {

  datatype Tier = Free | Pro | Enterprise

  /** The tier as the string literal the source stores and sends. */
  function TierName(t: Tier): string
  {
    match t
    case Free => "free"
    case Pro => "pro"
    case Enterprise => "enterprise"
  }
}
