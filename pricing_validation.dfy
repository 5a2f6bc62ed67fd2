/** The publish gate for a task price against the platform floor and the 25th
    percentile of similar tasks. Prices are whole Time Credits here. */
module PricingValidation {
  import opened Wrappers
  import opened Text

  /** The part of a price recommendation the gate reads. */
  datatype Recommendation = Recommendation(floor: int, p25: int)

  predicate CanPublish(budget: int, floor: int) {
    budget >= floor
  }

  predicate IsBelowP25(price: int, p25: int) {
    price < p25
  }

  const FloorPrefix := "Price below platform minimum ("
  const FloorSuffix := " TC). Please increase to publish."
  // Written in three pieces so that the verifier can look at its characters.
  const P25Warning :=
    "Current price is below 25th percentile" + " for similar tasks." + " Expected acceptance rate may be lower."

  /** The blocking message, which names the floor. */
  function FloorMessage(floor: int): (m: string)
    ensures |m| == |FloorPrefix| + |IntToString(floor)| + |FloorSuffix|
    ensures m[..|FloorPrefix|] == FloorPrefix
    ensures m[|FloorPrefix|..|m| - |FloorSuffix|] == IntToString(floor)
    ensures m[|m| - |FloorSuffix|..] == FloorSuffix
  {
    var m := FloorPrefix + IntToString(floor) + FloorSuffix;
    assert m[..|FloorPrefix|] == FloorPrefix;
    assert m[|FloorPrefix|..|m| - |FloorSuffix|] == IntToString(floor);
    m
  }

  /** The message shown under the price field: none without a recommendation,
      the blocking floor message first, then the percentile warning. */
  function PricingValidationMessage(budget: int, rec: Option<Recommendation>): (r: Option<string>)
    ensures rec.None? ==> r.None?
    ensures r.Some? <==> rec.Some? && (!CanPublish(budget, rec.value.floor) || IsBelowP25(budget, rec.value.p25))
    ensures rec.Some? && !CanPublish(budget, rec.value.floor) ==> r == Some(FloorMessage(rec.value.floor))
    ensures rec.Some? && CanPublish(budget, rec.value.floor) && IsBelowP25(budget, rec.value.p25) ==>
              r == Some(P25Warning)
  {
    if rec.None? then None
    else if !CanPublish(budget, rec.value.floor) then Some(FloorMessage(rec.value.floor))
    else if IsBelowP25(budget, rec.value.p25) then Some(P25Warning)
    else None
  }

  lemma FloorMessageIsNotWarning(floor: int)
    ensures FloorMessage(floor) != P25Warning
  {
    var m := FloorMessage(floor);
    assert m[0] == m[..|FloorPrefix|][0] == 'P';
    assert P25Warning[0] == 'C';
  }

  /** Two floors give two different blocking messages. */
  lemma FloorMessageInjective(f1: int, f2: int)
    requires FloorMessage(f1) == FloorMessage(f2)
    ensures f1 == f2
  {
    var m := FloorMessage(f1);
    assert IntToString(f1) == m[|FloorPrefix|..|m| - |FloorSuffix|] == IntToString(f2);
    IntToStringInjective(f1, f2);
  }

  /** The message blocks publishing exactly when the price is under the floor. */
  lemma BlockingIffBelowFloor(budget: int, rec: Recommendation)
    ensures (PricingValidationMessage(budget, Some(rec)) == Some(FloorMessage(rec.floor)))
              <==> !CanPublish(budget, rec.floor)
  {
    if CanPublish(budget, rec.floor) && IsBelowP25(budget, rec.p25) {
      FloorMessageIsNotWarning(rec.floor);
    }
  }

  /** Raising the price never brings a message back once it is gone. */
  lemma RaisingPriceKeepsSilence(budget: int, higher: int, rec: Option<Recommendation>)
    requires budget <= higher
    requires PricingValidationMessage(budget, rec).None?
    ensures PricingValidationMessage(higher, rec).None?
  {
  }
}
