/** Price calculation and rule selection (shared
    pricing_rule/PricingRuleService.java) over the table of rules, which is a
    sequence in storage order. The clock reading `now` is a parameter, read
    once per call. */
module Pricing {
  import opened Wrappers
  import opened Text
  import opened Seqs
  import opened Decimal
  import opened PricingRules

  const RuleNotFoundPrefix: string := "\U{041F}\U{0440}\U{0430}\U{0432}\U{0438}\U{043B}\U{043E} \U{0446}\U{0435}\U{043D}\U{043E}\U{043E}\U{0431}\U{0440}\U{0430}\U{0437}\U{043E}\U{0432}\U{0430}\U{043D}\U{0438}\U{044F} \U{043D}\U{0435} \U{043D}\U{0430}\U{0439}\U{0434}\U{0435}\U{043D}\U{043E}: "
  const RuleInactiveMessage: string := "\U{041F}\U{0440}\U{0430}\U{0432}\U{0438}\U{043B}\U{043E} \U{0446}\U{0435}\U{043D}\U{043E}\U{043E}\U{0431}\U{0440}\U{0430}\U{0437}\U{043E}\U{0432}\U{0430}\U{043D}\U{0438}\U{044F} \U{043D}\U{0435}\U{0430}\U{043A}\U{0442}\U{0438}\U{0432}\U{043D}\U{043E}"
  const WeightOutOfRangeMessage: string := "\U{0412}\U{0435}\U{0441} \U{043D}\U{0435} \U{0441}\U{043E}\U{043E}\U{0442}\U{0432}\U{0435}\U{0442}\U{0441}\U{0442}\U{0432}\U{0443}\U{0435}\U{0442} \U{0434}\U{0438}\U{0430}\U{043F}\U{0430}\U{0437}\U{043E}\U{043D}\U{0443} \U{043F}\U{0440}\U{0430}\U{0432}\U{0438}\U{043B}\U{0430}"

  /** IllegalArgumentException with its message; `NullArgument` is the
      exception a `null` rule id or weight raises inside the repository or
      the BigDecimal arithmetic. */
  datatype PricingError = IllegalArgument(message: string) | NullArgument

  function RuleNotFoundMessage(id: nat): (m: string)
    ensures IsPrefix(RuleNotFoundPrefix, m) && m[|RuleNotFoundPrefix|..] == NatToString(id)
  {
    RuleNotFoundPrefix + NatToString(id)
  }

  function RuleWithId(id: nat): PricingRule -> bool {
    (r: PricingRule) => r.id == id
  }

  function FindRule(rules: seq<PricingRule>, id: nat): (r: Option<PricingRule>)
    ensures r.Some? ==> r.value in rules && r.value.id == id
    ensures r.None? <==> forall i :: 0 <= i < |rules| ==> rules[i].id != id
  {
    FindFirst(rules, RuleWithId(id))
  }

  /** The tariff applied to a weight, before any range check. */
  function Tariff(rule: PricingRule, weight: real): real {
    rule.basePrice + rule.pricePerKg * weight
  }

  /** `calculatePrice`. */
  function CalculatePrice(rules: seq<PricingRule>, id: nat, weight: real, now: int): (r: Result<real, PricingError>)
    ensures r.Success? <==>
              FindRule(rules, id).Some? && IsActive(FindRule(rules, id).value, now)
              && IsWeightSuitable(FindRule(rules, id).value, weight)
  {
    match FindRule(rules, id)
    case None => Failure(IllegalArgument(RuleNotFoundMessage(id)))
    case Some(rule) =>
      if !IsActive(rule, now) then Failure(IllegalArgument(RuleInactiveMessage))
      else if !IsWeightSuitable(rule, weight) then Failure(IllegalArgument(WeightOutOfRangeMessage))
      else Success(Round2(Tariff(rule, weight)))
  }

  /** `calculatePrice` called with possibly-null arguments, as a draft
      passes its own fields: a null id fails in the lookup, a null weight in
      the first comparison or in the multiplication, after the lookup and the
      activity check. */
  function CalculatePriceOf(rules: seq<PricingRule>, id: Option<nat>, weight: Option<real>, now: int): (r: Result<real, PricingError>)
    ensures id.Some? && weight.Some? ==> r == CalculatePrice(rules, id.value, weight.value, now)
    ensures id.None? ==> r == Failure(NullArgument)
  {
    if id.None? then Failure(NullArgument)
    else if weight.Some? then CalculatePrice(rules, id.value, weight.value, now)
    else match FindRule(rules, id.value)
      case None => Failure(IllegalArgument(RuleNotFoundMessage(id.value)))
      case Some(rule) =>
        if !IsActive(rule, now) then Failure(IllegalArgument(RuleInactiveMessage))
        else Failure(NullArgument)
  }

  /** The three refusals, in the order they are checked, and the price in
      every other case: the tariff rounded to two decimals, half up. */
  lemma CalculatePriceCases(rules: seq<PricingRule>, id: nat, weight: real, now: int)
    ensures var r := CalculatePrice(rules, id, weight, now);
            && (FindRule(rules, id).None? <==> r == Failure(IllegalArgument(RuleNotFoundMessage(id))))
            && (FindRule(rules, id).Some? && !IsActive(FindRule(rules, id).value, now)
                <==> r == Failure(IllegalArgument(RuleInactiveMessage)))
            && (FindRule(rules, id).Some? && IsActive(FindRule(rules, id).value, now)
                && !IsWeightSuitable(FindRule(rules, id).value, weight)
                <==> r == Failure(IllegalArgument(WeightOutOfRangeMessage)))
            && (r.Success?
                <==> FindRule(rules, id).Some? && IsActive(FindRule(rules, id).value, now)
                     && IsWeightSuitable(FindRule(rules, id).value, weight))
            && (r.Success? ==> r.value == Round2(Tariff(FindRule(rules, id).value, weight)))
  {
    NotFoundDiffers(id, RuleInactiveMessage);
    NotFoundDiffers(id, WeightOutOfRangeMessage);
    assert RuleInactiveMessage[0] != WeightOutOfRangeMessage[0];
  }

  /** The not-found text starts with the prefix, which the other two texts do
      not. */
  lemma NotFoundDiffers(id: nat, m: string)
    requires m == RuleInactiveMessage || m == WeightOutOfRangeMessage
    ensures RuleNotFoundMessage(id) != m
  {
    var n := RuleNotFoundMessage(id);
    if m == RuleInactiveMessage {
      assert n[26] == RuleNotFoundPrefix[26] != m[26];
    } else {
      assert |m| > 0 && n[0] != m[0];
    }
  }

  /** The calculated price is within half a cent of the exact tariff. */
  lemma PriceWithinHalfCent(rules: seq<PricingRule>, id: nat, weight: real, now: int)
    requires CalculatePrice(rules, id, weight, now).Success?
    ensures var p, t := CalculatePrice(rules, id, weight, now).value, Tariff(FindRule(rules, id).value, weight);
            t - 0.005 <= p <= t + 0.005
  {
    CentsIsNearest(Tariff(FindRule(rules, id).value, weight));
  }

  /** With a non-negative rate per kilogram, a heavier parcel never costs
      less under the same rule. */
  lemma PriceMonotoneInWeight(rules: seq<PricingRule>, id: nat, w1: real, w2: real, now: int)
    requires CalculatePrice(rules, id, w1, now).Success? && CalculatePrice(rules, id, w2, now).Success?
    requires FindRule(rules, id).value.pricePerKg >= 0.0 && w1 <= w2
    ensures CalculatePrice(rules, id, w1, now).value <= CalculatePrice(rules, id, w2, now).value
  {
    var rule := FindRule(rules, id).value;
    assert rule.pricePerKg * w1 <= rule.pricePerKg * w2;
    Round2Monotone(Tariff(rule, w1), Tariff(rule, w2));
  }

  /** 200.00 + 50.00 per kilogram at 7.5 kg costs 575.00. */
  lemma TariffExample(rules: seq<PricingRule>, rule: PricingRule, weight: real, now: int)
    requires rules == [rule] && rule.id == 1 && IsActive(rule, now)
    requires rule.weightMin == Some(5.0) && rule.weightMax == Some(10.0)
    requires rule.basePrice == 200.0 && rule.pricePerKg == 50.0 && weight == 7.5
    ensures CalculatePrice(rules, 1, weight, now) == Success(575.0)
  {
    assert RuleWithId(1)(rules[0]);
    assert Tariff(rule, weight) == 575.0;
    CentsOfCents(57500);
  }

  /** Outside the weight range [5.0, 10.0] the same rule refuses. */
  lemma HeavyParcelRefused(rules: seq<PricingRule>, rule: PricingRule, weight: real, now: int)
    requires rules == [rule] && rule.id == 1 && IsActive(rule, now)
    requires rule.weightMax == Some(10.0) && weight == 15.0
    ensures CalculatePrice(rules, 1, weight, now) == Failure(IllegalArgument(WeightOutOfRangeMessage))
  {
    assert RuleWithId(1)(rules[0]);
  }

  function SuitableFor(weight: real, zone: DeliveryZone, now: int): PricingRule -> bool {
    (r: PricingRule) => IsSuitable(r, weight, zone, now)
  }

  function ActiveAt(now: int): PricingRule -> bool {
    (r: PricingRule) => IsActive(r, now)
  }

  /** `findSuitableRule`: the first rule, in storage order, that is active,
      takes the weight and serves the zone. */
  function FindSuitableRule(rules: seq<PricingRule>, weight: real, zone: DeliveryZone, now: int): (r: Option<PricingRule>)
    ensures r.Some? ==> IsSuitable(r.value, weight, zone, now)
                        && exists i :: 0 <= i < |rules| && rules[i] == r.value
                                       && forall j :: 0 <= j < i ==> !IsSuitable(rules[j], weight, zone, now)
    ensures r.None? <==> forall i :: 0 <= i < |rules| ==> !IsSuitable(rules[i], weight, zone, now)
  {
    match FirstIndex(rules, SuitableFor(weight, zone, now))
    case None => None
    case Some(i) => Some(rules[i])
  }

  /** `getActiveRules`: the active rules in storage order. */
  function GetActiveRules(rules: seq<PricingRule>, now: int): (r: seq<PricingRule>)
    ensures forall i :: 0 <= i < |r| ==> IsActive(r[i], now)
    ensures forall x :: x in rules && IsActive(x, now) ==> x in r
    ensures forall x :: multiset(r)[x] == (if IsActive(x, now) then multiset(rules)[x] else 0)
  {
    Filter(rules, ActiveAt(now))
  }

  /** The active rules are a sublist of the table, order kept. */
  lemma ActiveRulesKeepOrder(rules: seq<PricingRule>, now: int)
    ensures Subsequence(GetActiveRules(rules, now), rules)
    ensures |GetActiveRules(rules, now)| <= |rules|
  {
    FilterIsSubsequence(rules, ActiveAt(now));
  }

  /** A rule that `findSuitableRule` returns is also among the active rules. */
  lemma SuitableRuleIsActive(rules: seq<PricingRule>, weight: real, zone: DeliveryZone, now: int)
    requires FindSuitableRule(rules, weight, zone, now).Some?
    ensures FindSuitableRule(rules, weight, zone, now).value in GetActiveRules(rules, now)
  {
  }
}
