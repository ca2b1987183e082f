/**
 * The dictionary fold behind `calculateAssetClassExposures`,
 * `calculateSectorExposures`, `calculateGeographicExposures` and the sector
 * and region totals of `checkSecurityCompliance`: for each security,
 * `exposures[label] = (exposures[label] || 0) + currentWeight`.
 *
 * A JavaScript object also remembers the order in which its keys were first
 * written, and `Object.entries` lists them in that order; `LabelOrder` is
 * that order.
 */
module Rollup {
  import opened Portfolio
  import opened Seqs

  /** Which label of a security the fold groups by. */
  datatype Dimension = ByAssetClass | BySector | ByRegion

  function Label(s: Security, d: Dimension): string
  {
    match d
    case ByAssetClass => s.assetClass
    case BySector => s.sector
    case ByRegion => s.geographicExposure
  }

  /** The labels that occur in `secs`. */
  function Labels(secs: seq<Security>, d: Dimension): set<string>
  {
    set i | 0 <= i < |secs| :: Label(secs[i], d)
  }

  /** The summed `currentWeight` of the securities whose label is `k`. */
  function LabelWeight(secs: seq<Security>, d: Dimension, k: string): real
    decreases |secs|
  {
    if secs == [] then 0.0
    else
      LabelWeight(secs[..|secs| - 1], d, k)
      + (if Label(secs[|secs| - 1], d) == k then secs[|secs| - 1].currentWeight else 0.0)
  }

  /** The dictionary the fold leaves behind, one security at a time. */
  function Exposures(secs: seq<Security>, d: Dimension): map<string, real>
    decreases |secs|
  {
    if secs == [] then map[]
    else
      Bump(Exposures(secs[..|secs| - 1], d), Label(secs[|secs| - 1], d), secs[|secs| - 1].currentWeight)
  }

  /** `m[k] = (m[k] || 0) + w`: adds `w` to the entry for `k`, starting it at 0 if absent. */
  function Bump(m: map<string, real>, k: string, w: real): (r: map<string, real>)
    ensures r.Keys == m.Keys + {k}
    ensures r[k] == (if k in m then m[k] else 0.0) + w
    ensures forall j :: j in m && j != k ==> r[j] == m[j]
  {
    m[k := (if k in m then m[k] else 0.0) + w]
  }

  predicate Distinct(keys: seq<string>)
  {
    forall i, j :: 0 <= i < j < |keys| ==> keys[i] != keys[j]
  }

  /** The dictionary's keys in the order they were first written. */
  function LabelOrder(secs: seq<Security>, d: Dimension): seq<string>
    decreases |secs|
  {
    if secs == [] then []
    else
      var keys := LabelOrder(secs[..|secs| - 1], d);
      if Label(secs[|secs| - 1], d) in keys then keys else keys + [Label(secs[|secs| - 1], d)]
  }

  /** The key order lists every label that occurs, once each. */
  lemma {:induction false} LabelOrderMeaning(secs: seq<Security>, d: Dimension)
    ensures Distinct(LabelOrder(secs, d))
    ensures forall k :: k in LabelOrder(secs, d) <==> k in Labels(secs, d)
    decreases |secs|
  {
    if secs != [] {
      var prefix := secs[..|secs| - 1];
      LabelOrderMeaning(prefix, d);
      LabelsSnoc(prefix, secs[|secs| - 1], d);
      assert secs == prefix + [secs[|secs| - 1]];
    }
  }

  lemma LabelOrderSnoc(secs: seq<Security>, x: Security, d: Dimension)
    ensures var keys := LabelOrder(secs, d);
            LabelOrder(secs + [x], d) == if Label(x, d) in keys then keys else keys + [Label(x, d)]
  {
    assert (secs + [x])[..|secs|] == secs;
  }

  lemma LabelsSnoc(secs: seq<Security>, x: Security, d: Dimension)
    ensures Labels(secs + [x], d) == Labels(secs, d) + {Label(x, d)}
  {
    var s := secs + [x];
    forall k | k in Labels(s, d) ensures k in Labels(secs, d) + {Label(x, d)} {
      var i :| 0 <= i < |s| && Label(s[i], d) == k;
      if i < |secs| { assert s[i] == secs[i]; }
    }
    forall k | k in Labels(secs, d) ensures k in Labels(s, d) {
      var i :| 0 <= i < |secs| && Label(secs[i], d) == k;
      assert s[i] == secs[i];
    }
    assert s[|secs|] == x;
  }

  lemma LabelWeightSnoc(secs: seq<Security>, x: Security, d: Dimension, k: string)
    ensures LabelWeight(secs + [x], d, k)
         == LabelWeight(secs, d, k) + (if Label(x, d) == k then x.currentWeight else 0.0)
  {
    assert (secs + [x])[..|secs|] == secs;
  }

  /** A label that does not occur has nothing summed under it. */
  lemma {:induction false} LabelWeightOfAbsent(secs: seq<Security>, d: Dimension, k: string)
    requires k !in Labels(secs, d)
    ensures LabelWeight(secs, d, k) == 0.0
    decreases |secs|
  {
    if secs != [] {
      var prefix := secs[..|secs| - 1];
      LabelsSnoc(prefix, secs[|secs| - 1], d);
      assert secs == prefix + [secs[|secs| - 1]];
      LabelWeightOfAbsent(prefix, d, k);
    }
  }

  /**
   * What the dictionary holds: exactly the labels that occur, each with the
   * summed weight of the securities carrying it.
   */
  lemma {:induction false} ExposuresMeaning(secs: seq<Security>, d: Dimension)
    ensures Exposures(secs, d).Keys == Labels(secs, d)
    ensures forall k :: k in Exposures(secs, d) ==> Exposures(secs, d)[k] == LabelWeight(secs, d, k)
    decreases |secs|
  {
    if secs != [] {
      var prefix := secs[..|secs| - 1];
      var x := secs[|secs| - 1];
      assert secs == prefix + [x];
      ExposuresMeaning(prefix, d);
      LabelsSnoc(prefix, x, d);
      forall k | k in Exposures(secs, d) ensures Exposures(secs, d)[k] == LabelWeight(secs, d, k) {
        LabelWeightSnoc(prefix, x, d, k);
        if k !in Labels(prefix, d) { LabelWeightOfAbsent(prefix, d, k); }
      }
    }
  }

  lemma KeysFollowWeights(secs: seq<Security>, i: nat, d: Dimension, weights: map<string, real>, keys: seq<string>)
    requires i < |secs|
    requires weights == Exposures(secs[..i], d)
    requires keys == LabelOrder(secs[..i], d)
    ensures Label(secs[i], d) in weights <==> Label(secs[i], d) in keys
  {
    ExposuresMeaning(secs[..i], d);
    LabelOrderMeaning(secs[..i], d);
  }

  lemma ExposuresStep(secs: seq<Security>, i: nat, d: Dimension, weights: map<string, real>)
    requires i < |secs|
    requires weights == Exposures(secs[..i], d)
    ensures var k := Label(secs[i], d);
            Exposures(secs[..i + 1], d) == Bump(weights, k, secs[i].currentWeight)
  {
    assert secs[..i + 1][..i] == secs[..i];
  }

  lemma LabelOrderStep(secs: seq<Security>, i: nat, d: Dimension, keys: seq<string>)
    requires i < |secs|
    requires keys == LabelOrder(secs[..i], d)
    ensures var k := Label(secs[i], d); LabelOrder(secs[..i + 1], d) == if k in keys then keys else keys + [k]
  {
    assert secs[..i + 1] == secs[..i] + [secs[i]];
    LabelOrderSnoc(secs[..i], secs[i], d);
  }

  /**
   * The `forEach` that fills the dictionary. Returns the entries and the keys
   * in insertion order.
   */
  method Accumulate(secs: seq<Security>, d: Dimension) returns (weights: map<string, real>, keys: seq<string>)
    ensures weights == Exposures(secs, d)
    ensures keys == LabelOrder(secs, d)
  {
    weights, keys := map[], [];
    var i := 0;
    while i < |secs|
      invariant 0 <= i <= |secs|
      invariant weights == Exposures(secs[..i], d)
      invariant keys == LabelOrder(secs[..i], d)
    {
      var k := Label(secs[i], d);
      KeysFollowWeights(secs, i, d, weights, keys);
      ExposuresStep(secs, i, d, weights);
      LabelOrderStep(secs, i, d, keys);
      if k !in weights {
        keys := keys + [k];
      }
      weights := Bump(weights, k, secs[i].currentWeight);
      i := i + 1;
    }
    assert secs[..i] == secs;
  }

  /** The totals of the labels `keys`, added up. */
  function SumLabelWeights(keys: seq<string>, secs: seq<Security>, d: Dimension): real
    decreases |keys|
  {
    if keys == [] then 0.0 else LabelWeight(secs, d, keys[0]) + SumLabelWeights(keys[1..], secs, d)
  }

  lemma {:induction false} SumLabelWeightsSnoc(keys: seq<string>, secs: seq<Security>, x: Security, d: Dimension)
    requires Distinct(keys)
    ensures SumLabelWeights(keys, secs + [x], d)
         == SumLabelWeights(keys, secs, d) + (if Label(x, d) in keys then x.currentWeight else 0.0)
    decreases |keys|
  {
    if keys != [] {
      LabelWeightSnoc(secs, x, d, keys[0]);
      assert Distinct(keys[1..]);
      assert Label(x, d) in keys <==> Label(x, d) == keys[0] || Label(x, d) in keys[1..];
      assert keys[0] !in keys[1..];
      SumLabelWeightsSnoc(keys[1..], secs, x, d);
    }
  }

  lemma {:induction false} SumLabelWeightsAppend(keys: seq<string>, k: string, secs: seq<Security>, d: Dimension)
    ensures SumLabelWeights(keys + [k], secs, d) == SumLabelWeights(keys, secs, d) + LabelWeight(secs, d, k)
    decreases |keys|
  {
    if keys != [] {
      assert (keys + [k])[1..] == keys[1..] + [k];
      SumLabelWeightsAppend(keys[1..], k, secs, d);
    } else {
      assert [k][1..] == [];
    }
  }

  /** The dictionary's values add up to the total weight of the list. */
  lemma {:induction false} ExposuresAddUp(secs: seq<Security>, d: Dimension)
    ensures SumLabelWeights(LabelOrder(secs, d), secs, d) == SumOf(secs, CurrentWeight)
    decreases |secs|
  {
    if secs != [] {
      var prefix := secs[..|secs| - 1];
      var x := secs[|secs| - 1];
      var keys := LabelOrder(prefix, d);
      assert secs == prefix + [x];
      ExposuresAddUp(prefix, d);
      LabelOrderMeaning(prefix, d);
      SumLabelWeightsSnoc(keys, prefix, x, d);
      if Label(x, d) !in keys {
        SumLabelWeightsAppend(keys, Label(x, d), secs, d);
        LabelWeightSnoc(prefix, x, d, Label(x, d));
        LabelWeightOfAbsent(prefix, d, Label(x, d));
      }
    }
  }

  /** With no negative weights, a label's total is at least the weight of each security carrying it. */
  lemma {:induction false} LabelWeightCoversMember(secs: seq<Security>, d: Dimension, i: nat)
    requires i < |secs|
    requires forall j :: 0 <= j < |secs| ==> secs[j].currentWeight >= 0.0
    ensures LabelWeight(secs, d, Label(secs[i], d)) >= secs[i].currentWeight
    decreases |secs|
  {
    var prefix := secs[..|secs| - 1];
    if i < |secs| - 1 {
      assert prefix[i] == secs[i];
      LabelWeightCoversMember(prefix, d, i);
    } else {
      LabelWeightNonNegative(prefix, d, Label(secs[i], d));
    }
  }

  lemma {:induction false} LabelWeightNonNegative(secs: seq<Security>, d: Dimension, k: string)
    requires forall j :: 0 <= j < |secs| ==> secs[j].currentWeight >= 0.0
    ensures LabelWeight(secs, d, k) >= 0.0
    decreases |secs|
  {
    if secs != [] {
      LabelWeightNonNegative(secs[..|secs| - 1], d, k);
    }
  }
}
