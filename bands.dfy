/**
 * The score range and the six score categories that both the CLI and the
 * server report, with an independent reference for the categories: the
 * number of thresholds a score reaches.
 */
module Bands {

  /** `max(0, min(100, raw))`: a model output forced into the score range. */
  function Clamp(raw: real): (s: real)
    ensures 0.0 <= s <= 100.0
    ensures 0.0 <= raw <= 100.0 ==> s == raw
    ensures raw < 0.0 ==> s == 0.0
    ensures raw > 100.0 ==> s == 100.0
  {
    var capped := if raw < 100.0 then raw else 100.0;
    if capped > 0.0 then capped else 0.0
  }

  /** Clamping is idempotent and never reverses the order of two outputs. */
  lemma ClampStable(a: real, b: real)
    ensures Clamp(Clamp(a)) == Clamp(a)
    ensures a <= b ==> Clamp(a) <= Clamp(b)
  {
  }

  datatype Category = Excellent | VeryGood | Good | Fair | Poor | VeryPoor

  /** The plain label the server returns for a category. */
  function Name(c: Category): string
  {
    match c
    case Excellent => "Excellent"
    case VeryGood => "Very Good"
    case Good => "Good"
    case Fair => "Fair"
    case Poor => "Poor"
    case VeryPoor => "Very Poor"
  }

  /** Position of a category from worst (0) to best (5). */
  function Rank(c: Category): nat
  {
    match c
    case VeryPoor => 0
    case Poor => 1
    case Fair => 2
    case Good => 3
    case VeryGood => 4
    case Excellent => 5
  }

  function OfRank(k: nat): (c: Category)
    requires k <= 5
    ensures Rank(c) == k
  {
    if k == 0 then VeryPoor
    else if k == 1 then Poor
    else if k == 2 then Fair
    else if k == 3 then Good
    else if k == 4 then VeryGood
    else Excellent
  }

  lemma OfRankOfCategory(c: Category)
    ensures OfRank(Rank(c)) == c
  {
  }

  /** The inclusive lower bounds of Poor, Fair, Good, Very Good and Excellent. */
  const THRESHOLDS: seq<real> := [40.0, 50.0, 60.0, 70.0, 80.0]

  /** How many of `ts` the score reaches (a threshold is reached when score >= it). */
  function CountReached(ts: seq<real>, score: real): (k: nat)
    ensures k <= |ts|
  {
    if ts == [] then 0 else (if score >= ts[0] then 1 else 0) + CountReached(ts[1..], score)
  }

  /** The count over the five thresholds written out. */
  lemma CountReachedThresholds(score: real)
    ensures CountReached(THRESHOLDS, score)
         == (if score >= 40.0 then 1 else 0) + (if score >= 50.0 then 1 else 0)
          + (if score >= 60.0 then 1 else 0) + (if score >= 70.0 then 1 else 0)
          + (if score >= 80.0 then 1 else 0)
  {
    var ts := THRESHOLDS;
    var t1, t2, t3, t4 := ts[1..], ts[1..][1..], ts[1..][1..][1..], ts[1..][1..][1..][1..];
    assert t1 == [50.0, 60.0, 70.0, 80.0] && t2 == [60.0, 70.0, 80.0];
    assert t3 == [70.0, 80.0] && t4 == [80.0] && t4[1..] == [];
    assert CountReached(t4, score) == if score >= 80.0 then 1 else 0;
    assert CountReached(t3, score) == (if score >= 70.0 then 1 else 0) + CountReached(t4, score);
    assert CountReached(t2, score) == (if score >= 60.0 then 1 else 0) + CountReached(t3, score);
    assert CountReached(t1, score) == (if score >= 50.0 then 1 else 0) + CountReached(t2, score);
  }

  /** A higher score never reaches fewer thresholds. */
  lemma {:induction false} CountReachedMonotone(ts: seq<real>, s: real, t: real)
    requires s <= t
    ensures CountReached(ts, s) <= CountReached(ts, t)
  {
    if ts != [] {
      CountReachedMonotone(ts[1..], s, t);
    }
  }
}
