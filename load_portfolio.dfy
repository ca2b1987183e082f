/**
 * The reconciliation and compliance rules of the portfolio utilities:
 * deviations, the 3-point rebalancing tolerance, the allocation fold, the
 * three Investment Policy Statement (IPS) limits on securities, sectors and
 * regions, and the weight totals.
 */
module LoadPortfolio {
  import opened Portfolio
  import opened Seqs
  import opened Rollup

  /** The rebalancing tolerance, in percentage points either side of target. */
  const RebalancingTolerance: real := 3.0

  /** IPS limits, in percent of the portfolio. */
  const SingleSecurityLimit: real := 10.0
  const SectorLimit: real := 25.0
  const RegionalLimit: real := 10.0

  function Abs(x: real): (r: real)
    ensures r >= 0.0 && (r == x || r == -x)
  {
    if x < 0.0 then -x else x
  }

  /** `calculateDeviation(target, current)`: how far `current` is above `target`. */
  function CalculateDeviation(target: real, current: real): (r: real)
    ensures target + r == current
  {
    current - target
  }

  /** `calculatePercentageDeviation`: the deviation as a percentage of the target, 0 for a zero target. */
  function CalculatePercentageDeviation(target: real, current: real): (r: real)
    ensures target == 0.0 ==> r == 0.0
    ensures target != 0.0 ==> r * target == CalculateDeviation(target, current) * 100.0
  {
    if target == 0.0 then 0.0 else ((current - target) / target) * 100.0
  }

  /** `needsRebalancing`: the deviation is strictly outside the tolerance band. */
  predicate NeedsRebalancing(deviation: real)
    ensures NeedsRebalancing(deviation) <==> deviation < -3.0 || 3.0 < deviation
  {
    Abs(deviation) > RebalancingTolerance
  }

  /** `checkAllocationCompliance`: `allocations.every(a => !a.rebalancingRequired)`. */
  predicate CheckAllocationCompliance(allocations: seq<Allocation>)
    ensures CheckAllocationCompliance(allocations)
            <==> forall i :: 0 <= i < |allocations| ==> !allocations[i].rebalancingRequired
    decreases |allocations|
  {
    allocations == []
    || (!allocations[0].rebalancingRequired && CheckAllocationCompliance(allocations[1..]))
  }

  /** `calculateTotalWeight`: the summed `currentWeight`. */
  function CalculateTotalWeight(securities: seq<Security>): real
  {
    SumOf(securities, CurrentWeight)
  }

  /** The total weight of a list is the total of its parts. */
  lemma TotalWeightConcat(a: seq<Security>, b: seq<Security>)
    ensures CalculateTotalWeight(a + b) == CalculateTotalWeight(a) + CalculateTotalWeight(b)
  {
    SumOfConcat(a, b, CurrentWeight);
  }

  datatype WeightedValue = WeightedValue(weight: real, value: real)

  function TotalWeightOf(values: seq<WeightedValue>): real
    decreases |values|
  {
    if values == [] then 0.0 else TotalWeightOf(values[..|values| - 1]) + values[|values| - 1].weight
  }

  function WeightedSumOf(values: seq<WeightedValue>): real
    decreases |values|
  {
    if values == [] then 0.0
    else WeightedSumOf(values[..|values| - 1]) + values[|values| - 1].weight * values[|values| - 1].value
  }

  /** `calculateWeightedAverage`: the weight-normalised mean of the values, 0 when the weights add up to 0. */
  function CalculateWeightedAverage(values: seq<WeightedValue>): (r: real)
    ensures TotalWeightOf(values) == 0.0 ==> r == 0.0
    ensures TotalWeightOf(values) != 0.0 ==> r * TotalWeightOf(values) == WeightedSumOf(values)
  {
    var totalWeight := TotalWeightOf(values);
    if totalWeight == 0.0 then 0.0 else WeightedSumOf(values) / totalWeight
  }

  lemma {:induction false} WeightedSumOfConstant(values: seq<WeightedValue>, v: real)
    requires forall i :: 0 <= i < |values| ==> values[i].value == v
    ensures WeightedSumOf(values) == v * TotalWeightOf(values)
    decreases |values|
  {
    if values != [] {
      WeightedSumOfConstant(values[..|values| - 1], v);
    }
  }

  /** Averaging copies of one value gives that value back, whatever the weights, unless they cancel out. */
  lemma WeightedAverageOfConstant(values: seq<WeightedValue>, v: real)
    requires forall i :: 0 <= i < |values| ==> values[i].value == v
    requires TotalWeightOf(values) != 0.0
    ensures CalculateWeightedAverage(values) == v
  {
    var total := TotalWeightOf(values);
    calc {
      CalculateWeightedAverage(values);
    ==
      WeightedSumOf(values) / total;
    == { WeightedSumOfConstant(values, v); }
      (v * total) / total;
    == { CancelFactor(total, v); }
      v;
    }
  }

  // ----- checkSecurityCompliance -----

  datatype Rule = SingleSecurityRule | SectorRule | RegionalRule

  /** A ticker, sector or region that is over its limit, with its weight. */
  datatype Offender = Offender(key: string, weight: real)

  /** One breach message: the rule and every offender it lists, in the order listed. */
  datatype Violation = Violation(rule: Rule, offenders: seq<Offender>)

  datatype ComplianceReport = ComplianceReport(isCompliant: bool, breaches: seq<Violation>)

  function RuleRank(r: Rule): nat
  {
    match r
    case SingleSecurityRule => 0
    case SectorRule => 1
    case RegionalRule => 2
  }

  /** `securities.filter(s => s.currentWeight > 10)`, as (ticker, weight) pairs. */
  function OversizedSecurities(securities: seq<Security>): (r: seq<Offender>)
    ensures forall o :: o in r ==> o.weight > SingleSecurityLimit
    ensures forall i :: 0 <= i < |securities| && securities[i].currentWeight > SingleSecurityLimit
                        ==> Offender(securities[i].ticker, securities[i].currentWeight) in r
    ensures forall o :: o in r ==> exists i :: 0 <= i < |securities| && o == Offender(securities[i].ticker, securities[i].currentWeight)
    decreases |securities|
  {
    if securities == [] then []
    else
      var prefix := securities[..|securities| - 1];
      var s := securities[|securities| - 1];
      var rest := OversizedSecurities(prefix);
      assert forall i :: 0 <= i < |prefix| ==> prefix[i] == securities[i];
      if s.currentWeight > SingleSecurityLimit then rest + [Offender(s.ticker, s.currentWeight)] else rest
  }

  /** The offenders of two lists in turn are those of each list, one after the other, as the filter keeps order. */
  lemma {:induction false} OversizedSecuritiesConcat(a: seq<Security>, b: seq<Security>)
    ensures OversizedSecurities(a + b) == OversizedSecurities(a) + OversizedSecurities(b)
    decreases |b|
  {
    if b == [] {
      assert a + b == a;
    } else {
      var b' := b[..|b| - 1];
      assert (a + b)[..|a + b| - 1] == a + b';
      assert (a + b)[|a + b| - 1] == b[|b| - 1];
      OversizedSecuritiesConcat(a, b');
    }
  }

  /** One holding is listed, with its ticker and weight, exactly when it is over the limit. */
  lemma OversizedSecuritiesOne(s: Security)
    ensures OversizedSecurities([s]) == if s.currentWeight > SingleSecurityLimit then [Offender(s.ticker, s.currentWeight)] else []
  {
    assert [s][..0] == [];
  }

  /** `Object.entries(weights).filter(([_, w]) => w > limit)`, the keys taken in insertion order. */
  function OversizedGroups(keys: seq<string>, weights: map<string, real>, limit: real): (r: seq<Offender>)
    requires forall k :: k in keys ==> k in weights
    ensures forall o :: o in r ==> o.key in keys && o.weight == weights[o.key] && o.weight > limit
    ensures forall k :: k in keys && weights[k] > limit ==> Offender(k, weights[k]) in r
    decreases |keys|
  {
    if keys == [] then []
    else
      var rest := OversizedGroups(keys[1..], weights, limit);
      assert forall k :: k in keys[1..] ==> k in keys;
      if weights[keys[0]] > limit then [Offender(keys[0], weights[keys[0]])] + rest else rest
  }

  /** The offenders of two key lists in turn are those of each list, one after the other. */
  lemma {:induction false} OversizedGroupsConcat(a: seq<string>, b: seq<string>, weights: map<string, real>, limit: real)
    requires forall k :: k in a + b ==> k in weights
    ensures OversizedGroups(a + b, weights, limit) == OversizedGroups(a, weights, limit) + OversizedGroups(b, weights, limit)
    decreases |a|
  {
    if a != [] {
      assert (a + b)[1..] == a[1..] + b;
      OversizedGroupsConcat(a[1..], b, weights, limit);
    } else {
      assert a + b == b;
    }
  }

  /** One key offends exactly when its total is over the limit. */
  lemma OversizedGroupsOne(k: string, weights: map<string, real>, limit: real)
    requires k in weights
    ensures OversizedGroups([k], weights, limit) == if weights[k] > limit then [Offender(k, weights[k])] else []
  {
    assert [k][1..] == [];
  }

  /** The offenders of one grouping rule: the labels whose total is strictly over `limit`, in insertion order. */
  function OversizedLabels(securities: seq<Security>, d: Dimension, limit: real): seq<Offender>
  {
    ExposuresMeaning(securities, d);
    LabelOrderMeaning(securities, d);
    OversizedGroups(LabelOrder(securities, d), Exposures(securities, d), limit)
  }

  function BreachIf(rule: Rule, offenders: seq<Offender>): seq<Violation>
  {
    if |offenders| > 0 then [Violation(rule, offenders)] else []
  }

  /** The messages `checkSecurityCompliance` pushes, in order: one per rule that has offenders. */
  function Messages(securityOffenders: seq<Offender>, sectorOffenders: seq<Offender>, regionalOffenders: seq<Offender>): seq<Violation>
  {
    BreachIf(SingleSecurityRule, securityOffenders)
    + BreachIf(SectorRule, sectorOffenders)
    + BreachIf(RegionalRule, regionalOffenders)
  }

  /** The report `checkSecurityCompliance` returns. */
  function SecurityCompliance(securities: seq<Security>): ComplianceReport
  {
    var breaches := Messages(
      OversizedSecurities(securities),
      OversizedLabels(securities, BySector, SectorLimit),
      OversizedLabels(securities, ByRegion, RegionalLimit));
    ComplianceReport(|breaches| == 0, breaches)
  }

  /** `checkSecurityCompliance`, step by step: filter, fold the two dictionaries, push the messages. */
  method CheckSecurityCompliance(securities: seq<Security>) returns (report: ComplianceReport)
    ensures report == SecurityCompliance(securities)
    ensures report.isCompliant <==> report.breaches == []
  {
    var breaches: seq<Violation> := [];

    var oversizedSecurities := OversizedSecurities(securities);
    if |oversizedSecurities| > 0 {
      breaches := breaches + [Violation(SingleSecurityRule, oversizedSecurities)];
    }
    assert breaches == BreachIf(SingleSecurityRule, oversizedSecurities);

    var sectorWeights, sectorKeys := Accumulate(securities, BySector);
    ExposuresMeaning(securities, BySector);
    LabelOrderMeaning(securities, BySector);
    var oversizedSectors := OversizedGroups(sectorKeys, sectorWeights, SectorLimit);
    assert oversizedSectors == OversizedLabels(securities, BySector, SectorLimit);
    if |oversizedSectors| > 0 {
      breaches := breaches + [Violation(SectorRule, oversizedSectors)];
    }
    assert breaches == BreachIf(SingleSecurityRule, oversizedSecurities) + BreachIf(SectorRule, oversizedSectors);

    var regionalWeights, regionalKeys := Accumulate(securities, ByRegion);
    ExposuresMeaning(securities, ByRegion);
    LabelOrderMeaning(securities, ByRegion);
    var oversizedRegions := OversizedGroups(regionalKeys, regionalWeights, RegionalLimit);
    assert oversizedRegions == OversizedLabels(securities, ByRegion, RegionalLimit);
    if |oversizedRegions| > 0 {
      breaches := breaches + [Violation(RegionalRule, oversizedRegions)];
    }
    assert breaches == Messages(oversizedSecurities, oversizedSectors, oversizedRegions);

    report := ComplianceReport(|breaches| == 0, breaches);
  }

  /** Some message in `breaches` is about `rule`. */
  predicate Fires(breaches: seq<Violation>, rule: Rule)
  {
    exists i :: 0 <= i < |breaches| && breaches[i].rule == rule
  }

  /** The offenders of the first message about `rule`, none when there is no such message. */
  function OffendersOf(breaches: seq<Violation>, rule: Rule): seq<Offender>
    decreases |breaches|
  {
    if breaches == [] then []
    else if breaches[0].rule == rule then breaches[0].offenders
    else OffendersOf(breaches[1..], rule)
  }

  /** In a list of messages that each name someone, a rule fires exactly when it lists an offender. */
  lemma {:induction false} FiresIffListed(breaches: seq<Violation>, rule: Rule)
    requires forall i :: 0 <= i < |breaches| ==> |breaches[i].offenders| > 0
    ensures Fires(breaches, rule) <==> |OffendersOf(breaches, rule)| > 0
    decreases |breaches|
  {
    if breaches != [] && breaches[0].rule != rule {
      FiresIffListed(breaches[1..], rule);
      if Fires(breaches, rule) {
        var i :| 0 <= i < |breaches| && breaches[i].rule == rule;
        assert breaches[1..][i - 1].rule == rule;
      }
      if Fires(breaches[1..], rule) {
        var i :| 0 <= i < |breaches[1..]| && breaches[1..][i].rule == rule;
        assert breaches[i + 1].rule == rule;
      }
    }
  }

  /**
   * The shape of the message list: at most three messages, in the order
   * security, sector, region, and none of them without offenders.
   */
  lemma MessagesOrdered(securityOffenders: seq<Offender>, sectorOffenders: seq<Offender>, regionalOffenders: seq<Offender>)
    ensures var m := Messages(securityOffenders, sectorOffenders, regionalOffenders);
            && |m| <= 3
            && (forall i, j :: 0 <= i < j < |m| ==> RuleRank(m[i].rule) < RuleRank(m[j].rule))
            && (forall i :: 0 <= i < |m| ==> |m[i].offenders| > 0)
  {
  }

  /** The security rule's message, if any, carries exactly the oversized securities. */
  lemma SecurityMessageListed(securityOffenders: seq<Offender>, sectorOffenders: seq<Offender>, regionalOffenders: seq<Offender>)
    ensures OffendersOf(Messages(securityOffenders, sectorOffenders, regionalOffenders), SingleSecurityRule) == securityOffenders
  {
    var b := BreachIf(SectorRule, sectorOffenders);
    var c := BreachIf(RegionalRule, regionalOffenders);
    if securityOffenders == [] {
      assert Messages(securityOffenders, sectorOffenders, regionalOffenders) == (b + c) + [];
      OffendersOfSkip(b + c, [], SingleSecurityRule);
    }
  }

  /** The sector rule's message, if any, carries exactly the oversized sectors. */
  lemma SectorMessageListed(securityOffenders: seq<Offender>, sectorOffenders: seq<Offender>, regionalOffenders: seq<Offender>)
    ensures OffendersOf(Messages(securityOffenders, sectorOffenders, regionalOffenders), SectorRule) == sectorOffenders
  {
    var a := BreachIf(SingleSecurityRule, securityOffenders);
    var b := BreachIf(SectorRule, sectorOffenders);
    var c := BreachIf(RegionalRule, regionalOffenders);
    assert Messages(securityOffenders, sectorOffenders, regionalOffenders) == a + (b + c);
    OffendersOfSkip(a, b + c, SectorRule);
    if sectorOffenders == [] {
      assert b + c == c + [];
      OffendersOfSkip(c, [], SectorRule);
    }
  }

  /** The regional rule's message, if any, carries exactly the oversized regions. */
  lemma RegionalMessageListed(securityOffenders: seq<Offender>, sectorOffenders: seq<Offender>, regionalOffenders: seq<Offender>)
    ensures OffendersOf(Messages(securityOffenders, sectorOffenders, regionalOffenders), RegionalRule) == regionalOffenders
  {
    var a := BreachIf(SingleSecurityRule, securityOffenders);
    var b := BreachIf(SectorRule, sectorOffenders);
    OffendersOfSkip(a + b, BreachIf(RegionalRule, regionalOffenders), RegionalRule);
  }

  /** Messages about other rules in front do not change what a rule lists. */
  lemma {:induction false} OffendersOfSkip(front: seq<Violation>, back: seq<Violation>, rule: Rule)
    requires forall i :: 0 <= i < |front| ==> front[i].rule != rule
    ensures OffendersOf(front + back, rule) == OffendersOf(back, rule)
    decreases |front|
  {
    if front == [] {
      assert front + back == back;
    } else {
      assert (front + back)[1..] == front[1..] + back;
      OffendersOfSkip(front[1..], back, rule);
    }
  }

  lemma ComplianceOfNothing()
    ensures SecurityCompliance([]) == ComplianceReport(true, [])
  {
  }

  lemma {:induction false} OversizedGroupsEmpty(keys: seq<string>, weights: map<string, real>, limit: real)
    requires forall k :: k in keys ==> k in weights
    ensures OversizedGroups(keys, weights, limit) == [] <==> forall k :: k in keys ==> weights[k] <= limit
  {
    if OversizedGroups(keys, weights, limit) != [] {
      assert OversizedGroups(keys, weights, limit)[0] in OversizedGroups(keys, weights, limit);
    }
  }

  /** A rule of the report fires exactly when its offender list is non-empty, and then lists exactly those offenders. */
  lemma RuleListed(securities: seq<Security>, rule: Rule, offenders: seq<Offender>)
    requires offenders == match rule
                          case SingleSecurityRule => OversizedSecurities(securities)
                          case SectorRule => OversizedLabels(securities, BySector, SectorLimit)
                          case RegionalRule => OversizedLabels(securities, ByRegion, RegionalLimit)
    ensures Fires(SecurityCompliance(securities).breaches, rule) <==> |offenders| > 0
    ensures OffendersOf(SecurityCompliance(securities).breaches, rule) == offenders
  {
    var a := OversizedSecurities(securities);
    var b := OversizedLabels(securities, BySector, SectorLimit);
    var c := OversizedLabels(securities, ByRegion, RegionalLimit);
    MessagesOrdered(a, b, c);
    SecurityMessageListed(a, b, c);
    SectorMessageListed(a, b, c);
    RegionalMessageListed(a, b, c);
    FiresIffListed(Messages(a, b, c), rule);
  }

  /** The single-security rule fires exactly when some holding is strictly over 10%, and lists every such holding. */
  lemma SingleSecurityRuleFires(securities: seq<Security>)
    ensures Fires(SecurityCompliance(securities).breaches, SingleSecurityRule)
            <==> exists i :: 0 <= i < |securities| && securities[i].currentWeight > SingleSecurityLimit
    ensures forall i :: 0 <= i < |securities| && securities[i].currentWeight > SingleSecurityLimit ==>
              Offender(securities[i].ticker, securities[i].currentWeight) in OffendersOf(SecurityCompliance(securities).breaches, SingleSecurityRule)
  {
    var off := OversizedSecurities(securities);
    RuleListed(securities, SingleSecurityRule, off);
    if |off| > 0 {
      assert off[0] in off;
    }
  }

  /**
   * A grouping rule fires exactly when some label's total is strictly over
   * its limit; it lists each such label once, with its total, and nothing
   * else.
   */
  lemma GroupRuleFires(securities: seq<Security>, rule: Rule, d: Dimension, limit: real)
    requires (rule == SectorRule && d == BySector && limit == SectorLimit)
             || (rule == RegionalRule && d == ByRegion && limit == RegionalLimit)
    ensures var totals := Exposures(securities, d);
            Fires(SecurityCompliance(securities).breaches, rule) <==> exists k :: k in totals && totals[k] > limit
    ensures var totals := Exposures(securities, d);
            var listed := OffendersOf(SecurityCompliance(securities).breaches, rule);
            && (forall o :: o in listed ==> o.key in totals && o.weight == totals[o.key] && o.weight > limit)
            && (forall k :: k in totals && totals[k] > limit ==> Offender(k, totals[k]) in listed)
  {
    var totals := Exposures(securities, d);
    ExposuresMeaning(securities, d);
    LabelOrderMeaning(securities, d);
    var keys := LabelOrder(securities, d);
    var off := OversizedLabels(securities, d, limit);
    RuleListed(securities, rule, off);
    OversizedGroupsEmpty(keys, totals, limit);
  }

  /**
   * With no negative weights, a holding over 10% always also puts its own
   * region over the 10% regional limit, so the single-security message never
   * comes without a regional one.
   */
  lemma SingleSecurityBreachImpliesRegionalBreach(securities: seq<Security>)
    requires forall i :: 0 <= i < |securities| ==> securities[i].currentWeight >= 0.0
    requires Fires(SecurityCompliance(securities).breaches, SingleSecurityRule)
    ensures Fires(SecurityCompliance(securities).breaches, RegionalRule)
  {
    SingleSecurityRuleFires(securities);
    var i :| 0 <= i < |securities| && securities[i].currentWeight > SingleSecurityLimit;
    LabelWeightCoversMember(securities, ByRegion, i);
    ExposuresMeaning(securities, ByRegion);
    var k := Label(securities[i], ByRegion);
    assert k in Labels(securities, ByRegion);
    GroupRuleFires(securities, RegionalRule, ByRegion, RegionalLimit);
  }

  /** Checking keys against two dictionaries that agree on them finds the same offenders. */
  lemma {:induction false} OversizedGroupsAgree(keys: seq<string>, w1: map<string, real>, w2: map<string, real>, limit: real)
    requires forall k :: k in keys ==> k in w1 && k in w2 && w1[k] == w2[k]
    ensures OversizedGroups(keys, w1, limit) == OversizedGroups(keys, w2, limit)
    decreases |keys|
  {
    if keys != [] {
      assert forall k :: k in keys[1..] ==> k in keys;
      OversizedGroupsAgree(keys[1..], w1, w2, limit);
    }
  }

  /** A last key within the limit adds no offender. */
  lemma {:induction false} OversizedGroupsSnoc(keys: seq<string>, k: string, weights: map<string, real>, limit: real)
    requires forall j :: j in keys + [k] ==> j in weights
    requires weights[k] <= limit
    ensures OversizedGroups(keys + [k], weights, limit) == OversizedGroups(keys, weights, limit)
    decreases |keys|
  {
    if keys == [] {
      assert [k][1..] == [];
    } else {
      assert (keys + [k])[1..] == keys[1..] + [k];
      OversizedGroupsSnoc(keys[1..], k, weights, limit);
    }
  }

  /** A holding of zero weight leaves every label's total, and so every label offender, as it was. */
  lemma ZeroWeightLabelsUnchanged(securities: seq<Security>, z: Security, d: Dimension, limit: real)
    requires z.currentWeight == 0.0 && limit >= 0.0
    ensures OversizedLabels(securities + [z], d, limit) == OversizedLabels(securities, d, limit)
  {
    var s := securities + [z];
    var keys := LabelOrder(securities, d);
    var k := Label(z, d);
    assert s[..|securities|] == securities;
    ExposuresMeaning(securities, d);
    LabelOrderMeaning(securities, d);
    ExposuresMeaning(s, d);
    LabelOrderMeaning(s, d);
    OversizedGroupsAgree(keys, Exposures(s, d), Exposures(securities, d), limit);
    if k !in keys {
      OversizedGroupsSnoc(keys, k, Exposures(s, d), limit);
    }
  }

  /** Appending a holding of zero weight changes nothing in the compliance report. */
  lemma ZeroWeightHoldingChangesNothing(securities: seq<Security>, z: Security)
    requires z.currentWeight == 0.0
    ensures SecurityCompliance(securities + [z]) == SecurityCompliance(securities)
  {
    assert (securities + [z])[..|securities|] == securities;
    ZeroWeightLabelsUnchanged(securities, z, BySector, SectorLimit);
    ZeroWeightLabelsUnchanged(securities, z, ByRegion, RegionalLimit);
  }
}
