/**
 The tiered estimate of how long a transaction takes: five tiers of the effective
 priority fee, and offering more never leads to a slower one.
 */
module TimeEstimates {
  import opened Prelude
  import opened GasFees

  datatype FeeLevel = FeeLevel(suggestedMaxPriorityFeePerGas: string, minWaitTimeEstimate: int,
      maxWaitTimeEstimate: int)

  datatype Estimates = Estimates(low: FeeLevel, medium: FeeLevel, high: FeeLevel, estimatedBaseFee: string)

  // No lower bound and an unknown upper bound are `None`.
  datatype TimeBounds = TimeBounds(lower: Option<int>, upper: Option<int>)

  // The conversion reads every fee; otherwise it throws.
  predicate AllAccepted(maxPriorityFeePerGas: string, maxFeePerGas: string, e: Estimates) {
    && Accepted(maxPriorityFeePerGas) && Accepted(maxFeePerGas) && Accepted(e.estimatedBaseFee)
    && Accepted(e.low.suggestedMaxPriorityFeePerGas) && Accepted(e.medium.suggestedMaxPriorityFeePerGas)
    && Accepted(e.high.suggestedMaxPriorityFeePerGas)
  }

  function EffectivePriorityFee(maxPriorityFeePerGas: string, maxFeePerGas: string, e: Estimates): int
    requires AllAccepted(maxPriorityFeePerGas, maxFeePerGas, e)
  {
    var room := Converted(maxFeePerGas) - Converted(e.estimatedBaseFee);
    if Converted(maxPriorityFeePerGas) <= room then Converted(maxPriorityFeePerGas) else room
  }

  function CalculateTimeEstimate(maxPriorityFeePerGas: string, maxFeePerGas: string, e: Estimates): Option<TimeBounds> {
    if !AllAccepted(maxPriorityFeePerGas, maxFeePerGas, e) then None
    else
      Some(BoundsFor(EffectivePriorityFee(maxPriorityFeePerGas, maxFeePerGas, e),
                     Converted(e.low.suggestedMaxPriorityFeePerGas),
                     Converted(e.medium.suggestedMaxPriorityFeePerGas),
                     Converted(e.high.suggestedMaxPriorityFeePerGas), e))
  }

  function BoundsFor(effective: int, low: int, medium: int, high: int, e: Estimates): TimeBounds {
    if effective < low then TimeBounds(None, None)
    else if low <= effective && effective < medium then
      TimeBounds(Some(e.low.minWaitTimeEstimate), Some(e.low.maxWaitTimeEstimate))
    else if medium <= effective && effective < high then
      TimeBounds(Some(e.medium.minWaitTimeEstimate), Some(e.medium.maxWaitTimeEstimate))
    else if effective == high then
      TimeBounds(Some(e.high.minWaitTimeEstimate), Some(e.high.maxWaitTimeEstimate))
    else TimeBounds(Some(0), Some(e.high.maxWaitTimeEstimate))
  }

  // 0 is the slowest tier, 4 the fastest.
  function TierOf(effective: int, low: int, medium: int, high: int): nat {
    if effective < low then 0
    else if effective < medium then 1
    else if effective < high then 2
    else if effective == high then 3
    else 4
  }

  function Tier(maxPriorityFeePerGas: string, maxFeePerGas: string, e: Estimates): nat
    requires AllAccepted(maxPriorityFeePerGas, maxFeePerGas, e)
  {
    TierOf(EffectivePriorityFee(maxPriorityFeePerGas, maxFeePerGas, e),
           Converted(e.low.suggestedMaxPriorityFeePerGas),
           Converted(e.medium.suggestedMaxPriorityFeePerGas),
           Converted(e.high.suggestedMaxPriorityFeePerGas))
  }

  function BoundsOfTier(tier: nat, e: Estimates): TimeBounds {
    match tier
    case 0 => TimeBounds(None, None)
    case 1 => TimeBounds(Some(e.low.minWaitTimeEstimate), Some(e.low.maxWaitTimeEstimate))
    case 2 => TimeBounds(Some(e.medium.minWaitTimeEstimate), Some(e.medium.maxWaitTimeEstimate))
    case 3 => TimeBounds(Some(e.high.minWaitTimeEstimate), Some(e.high.maxWaitTimeEstimate))
    case _ => TimeBounds(Some(0), Some(e.high.maxWaitTimeEstimate))
  }

  lemma BranchesAreTiers(effective: int, low: int, medium: int, high: int, e: Estimates)
    ensures BoundsFor(effective, low, medium, high, e) == BoundsOfTier(TierOf(effective, low, medium, high), e)
  {
  }

  /** The estimate is that of the tier, or there is none because a fee is refused. */
  lemma EstimateIsTier(priority: string, cap: string, e: Estimates)
    ensures CalculateTimeEstimate(priority, cap, e)
         == if AllAccepted(priority, cap, e) then Some(BoundsOfTier(Tier(priority, cap, e), e)) else None
  {
    if AllAccepted(priority, cap, e) {
      BranchesAreTiers(EffectivePriorityFee(priority, cap, e),
                       Converted(e.low.suggestedMaxPriorityFeePerGas),
                       Converted(e.medium.suggestedMaxPriorityFeePerGas),
                       Converted(e.high.suggestedMaxPriorityFeePerGas), e);
    }
  }

  lemma TierOfIsMonotone(effective: int, effective': int, low: int, medium: int, high: int)
    requires effective <= effective'
    ensures TierOf(effective, low, medium, high) <= TierOf(effective', low, medium, high)
  {
  }

  // What is offered after conversion is no less, and the base fee no more.
  predicate OffersMore(priority: string, cap: string, base: string, priority': string, cap': string, base': string)
    requires Accepted(priority) && Accepted(cap) && Accepted(base)
    requires Accepted(priority') && Accepted(cap') && Accepted(base')
  {
    && Converted(priority) <= Converted(priority') && Converted(cap) <= Converted(cap')
    && Converted(base') <= Converted(base)
  }

  /** Offering more wei, or a lower base fee, never moves the estimate to a slower
      tier, whatever the fees and the order of the suggested ones. */
  lemma EstimateIsMonotone(priority: string, priority': string, cap: string, cap': string, e: Estimates, base': string)
    requires AllAccepted(priority, cap, e) && Accepted(priority') && Accepted(cap') && Accepted(base')
    requires OffersMore(priority, cap, e.estimatedBaseFee, priority', cap', base')
    ensures Tier(priority, cap, e) <= Tier(priority', cap', e.(estimatedBaseFee := base'))
  {
    TierOfIsMonotone(EffectivePriorityFee(priority, cap, e),
                     EffectivePriorityFee(priority', cap', e.(estimatedBaseFee := base')),
                     Converted(e.low.suggestedMaxPriorityFeePerGas),
                     Converted(e.medium.suggestedMaxPriorityFeePerGas),
                     Converted(e.high.suggestedMaxPriorityFeePerGas));
  }

  // The amounts are in order and are not converted out of it.
  predicate InOrder(a: string, b: string) {
    IsSigned(a) && IsSigned(b) && SignedAmount(a) <= SignedAmount(b) && !OutOfOrder(a, b)
  }

  /** So it is for larger amounts, negative ones too, that keep their order when
      converted; amounts that are not negative always do. */
  lemma EstimateFollowsAmounts(priority: string, priority': string, cap: string, cap': string, e: Estimates,
      base': string)
    requires AllAccepted(priority, cap, e)
    requires InOrder(priority, priority') && InOrder(cap, cap') && InOrder(base', e.estimatedBaseFee)
    ensures AllAccepted(priority', cap', e.(estimatedBaseFee := base'))
    ensures Tier(priority, cap, e) <= Tier(priority', cap', e.(estimatedBaseFee := base'))
  {
    ConversionIsMonotoneIff(priority, priority');
    ConversionIsMonotoneIff(cap, cap');
    ConversionIsMonotoneIff(base', e.estimatedBaseFee);
    EstimateIsMonotone(priority, priority', cap, cap', e, base');
  }

  lemma DecimalsAreInOrder(a: string, b: string)
    requires IsDecimal(a) && IsDecimal(b) && !IsNegative(a) && !IsNegative(b) && Amount(a) <= Amount(b)
    ensures InOrder(a, b)
  {
  }

  // `b` promises confirmation no later than `a`, at both ends.
  predicate NoLater(b: TimeBounds, a: TimeBounds) {
    && (a.upper.Some? ==> b.upper.Some? && b.upper.value <= a.upper.value)
    && (a.lower.Some? ==> b.lower.Some? && b.lower.value <= a.lower.value)
  }

  predicate WaitsOrdered(e: Estimates) {
    && 0 <= e.high.minWaitTimeEstimate <= e.medium.minWaitTimeEstimate <= e.low.minWaitTimeEstimate
    && e.high.maxWaitTimeEstimate <= e.medium.maxWaitTimeEstimate <= e.low.maxWaitTimeEstimate
  }

  lemma TierWaits(t: nat, t': nat, e: Estimates, base': string)
    requires t <= t' && WaitsOrdered(e)
    ensures NoLater(BoundsOfTier(t', e.(estimatedBaseFee := base')), BoundsOfTier(t, e))
  {
  }

  /** In times rather than tiers, when the waits of the three levels are ordered. */
  lemma WaitIsMonotone(priority: string, priority': string, cap: string, cap': string, e: Estimates, base': string)
    requires AllAccepted(priority, cap, e) && Accepted(priority') && Accepted(cap') && Accepted(base')
    requires OffersMore(priority, cap, e.estimatedBaseFee, priority', cap', base') && WaitsOrdered(e)
    ensures var was, now := CalculateTimeEstimate(priority, cap, e),
                            CalculateTimeEstimate(priority', cap', e.(estimatedBaseFee := base'));
            was.Some? && now.Some? && NoLater(now.value, was.value)
  {
    var e' := e.(estimatedBaseFee := base');
    EstimateIsMonotone(priority, priority', cap, cap', e, base');
    EstimateIsTier(priority, cap, e);
    EstimateIsTier(priority', cap', e');
    var t, t' := Tier(priority, cap, e), Tier(priority', cap', e');
    TierWaits(t, t', e, base');
    assert CalculateTimeEstimate(priority, cap, e) == Some(BoundsOfTier(t, e));
    assert CalculateTimeEstimate(priority', cap', e') == Some(BoundsOfTier(t', e'));
  }
}
