/** Pricing rules (shared pricing_rule/domain/PricingRule.java): a tariff for
    one delivery zone, a weight range and a validity period. Nullable bounds
    are options; a missing bound is open. Amounts are exact rationals and
    times are LocalDateTime values in whole seconds. */
module PricingRules {
  import opened Wrappers

  /** The zones the sources name. */
  datatype DeliveryZone = CITY | INTERCITY | REGIONAL

  datatype PricingRule = PricingRule(
    id: nat,
    ruleName: string,
    deliveryZone: DeliveryZone,
    weightMin: Option<real>,
    weightMax: Option<real>,
    basePrice: real,
    pricePerKg: real,
    effectiveFrom: Option<int>,
    effectiveTo: Option<int>)

  /** `isActive` at the clock reading `now`: not before the start and not
      after the end. */
  predicate IsActive(rule: PricingRule, now: int) {
    if rule.effectiveFrom.Some? && now < rule.effectiveFrom.value then false
    else if rule.effectiveTo.Some? && now > rule.effectiveTo.value then false
    else true
  }

  /** `isWeightSuitable`. */
  predicate IsWeightSuitable(rule: PricingRule, weight: real) {
    if rule.weightMin.Some? && weight < rule.weightMin.value then false
    else if rule.weightMax.Some? && weight > rule.weightMax.value then false
    else true
  }

  /** `isSuitable`. */
  predicate IsSuitable(rule: PricingRule, weight: real, zone: DeliveryZone, now: int) {
    IsActive(rule, now) && IsWeightSuitable(rule, weight) && rule.deliveryZone == zone
  }

  /** A rule is active exactly on the closed interval between its bounds; an
      absent bound does not restrict, and both end points count as active. */
  lemma ActiveIsClosedPeriod(rule: PricingRule, now: int)
    ensures IsActive(rule, now)
        <==> (rule.effectiveFrom.None? || rule.effectiveFrom.value <= now)
             && (rule.effectiveTo.None? || now <= rule.effectiveTo.value)
    ensures rule.effectiveFrom == Some(now) && (rule.effectiveTo.None? || now <= rule.effectiveTo.value) ==> IsActive(rule, now)
    ensures rule.effectiveTo == Some(now) && (rule.effectiveFrom.None? || rule.effectiveFrom.value <= now) ==> IsActive(rule, now)
  {
  }

  /** The weight range is closed at both ends and an absent end is open. */
  lemma WeightRangeIsClosed(rule: PricingRule, weight: real)
    ensures IsWeightSuitable(rule, weight)
        <==> (rule.weightMin.None? || rule.weightMin.value <= weight)
             && (rule.weightMax.None? || weight <= rule.weightMax.value)
    ensures rule.weightMin.None? && rule.weightMax.None? ==> IsWeightSuitable(rule, weight)
  {
  }

  /** Within its period, a rule is active at every instant between two
      instants at which it is active. */
  lemma ActivePeriodIsConvex(rule: PricingRule, t1: int, t: int, t2: int)
    requires t1 <= t <= t2 && IsActive(rule, t1) && IsActive(rule, t2)
    ensures IsActive(rule, t)
  {
  }

  /** Likewise for weights: the suitable weights form an interval. */
  lemma WeightRangeIsConvex(rule: PricingRule, w1: real, w: real, w2: real)
    requires w1 <= w <= w2 && IsWeightSuitable(rule, w1) && IsWeightSuitable(rule, w2)
    ensures IsWeightSuitable(rule, w)
  {
  }
}
