/** The two searches of the fixture tool: bracketing and bisecting for a borrow
    amount that becomes kickable, and halving for a removable quote amount. */
module AutoTune {
  import opened Wrappers
  import opened Decimals
  import opened Conversions

  // ------------------------------------------------------------ auto-tuning

  datatype Verdict = Eligible | Ineligible | Threw

  /** One simulation that was made. */
  datatype Probe = Probe(amount: int, verdict: Verdict)

  datatype Summary = Summary(selected: int, lowerProbe: int, upperProbe: int, searchIterations: nat)

  datatype TuneError = SimulationFailed | NothingBelowTheCap

  const BORROW_PROBE_GROWTH_BPS: int := 10500
  const BORROW_BINARY_SEARCH_ITERATIONS: nat := 18

  /** What the simulation answers may depend on how many came before. */
  type Oracle = (nat, int) -> Verdict

  ghost predicate Genuine(oracle: Oracle, probes: seq<Probe>) {
    forall i :: 0 <= i < |probes| ==> probes[i].verdict == oracle(i, probes[i].amount)
  }

  function Pow2(n: nat): (p: nat)
    ensures p > 0
  {
    if n == 0 then 1 else 2 * Pow2(n - 1)
  }

  /** The next upper probe: five per cent more, at least one more, within the cap. */
  function Grown(upper: int, cap: int): int {
    var nextUpper := TruncDiv(upper * BORROW_PROBE_GROWTH_BPS, 10000);
    var grown := if nextUpper > upper then nextUpper else upper + 1;
    if grown > cap then cap else grown
  }

  lemma GrownGrows(upper: int, cap: int)
    requires upper < cap
    ensures upper < Grown(upper, cap) <= cap
  {
  }

  /** A step that is not cut off by the cap grows a positive probe by five per
      cent, rounded down but not to nothing. */
  lemma GrowthIsFivePerCent(upper: nat, cap: int)
    requires Grown(upper, cap) < cap
    ensures var g := Grown(upper, cap);
            if upper < 20 then g == upper + 1 else IsFloor(g, upper * BORROW_PROBE_GROWTH_BPS, 10000)
  {
    WhenTruncationRounds(upper * BORROW_PROBE_GROWTH_BPS, 10000);
  }

  /** The width w is at most w0 / 2^n rounded up. */
  predicate HalvedTimes(w: int, w0: int, n: nat) { (w - 1) * Pow2(n) < w0 }

  lemma HalvedTimesMeansTheCeiling(w: int, w0: nat, n: nat)
    ensures HalvedTimes(w, w0, n) <==> w <= RoundUp(w0, Pow2(n))
  {
    var d := Pow2(n);
    WhenRoundUpRoundsUp(w0, d);
    CeilIsTheLeast(RoundUp(w0, d), w0, d);
    assert w0 <= d * (w - 1) <==> RoundUp(w0, d) <= w - 1;
    Regroup(d, w - 1, 0, 0);
  }

  lemma HalvingHalves(w: int, half: int, w0: int, n: nat)
    requires HalvedTimes(w, w0, n) && 2 * half <= w + 1
    ensures HalvedTimes(half, w0, n + 1)
  {
    var p := Pow2(n);
    MulLeq(p, 2 * (half - 1), w - 1);
    assert p * (2 * (half - 1)) == (half - 1) * (2 * p);
  }

  /** Phase one. From a start below the cap it stops with the last two probes, an
      ineligible one and the eligible one grown from it, or fails. */
  method GrowBracket(start: int, cap: int, oracle: Oracle, ghost before: seq<Probe>, calls: nat)
    returns (r: Result<(int, int), TuneError>, searchIterations: nat, ghost probes: seq<Probe>)
    requires calls == |before| && Genuine(oracle, before) && Probe(start, Ineligible) in before
    ensures before <= probes && Genuine(oracle, probes) && searchIterations == |probes|
    ensures start >= cap ==> r == Ok((start, start)) && probes == before
    ensures start < cap && r.Ok? ==>
      && start <= r.value.0 < r.value.1 == Grown(r.value.0, cap)
      && Probe(r.value.0, Ineligible) in probes && Probe(r.value.1, Eligible) in probes
    ensures r == Err(SimulationFailed) ==> probes != [] && probes[|probes| - 1].verdict.Threw?
    ensures r == Err(NothingBelowTheCap) ==> Probe(cap, Ineligible) in probes
  {
    var lower, upper := start, start;
    probes, searchIterations := before, calls;
    while upper < cap
      invariant start <= lower == upper
      invariant start < cap ==> upper < cap
      invariant start >= cap ==> upper == start && probes == before
      invariant before <= probes && Genuine(oracle, probes) && searchIterations == |probes|
      invariant Probe(lower, Ineligible) in probes
      decreases cap - upper
    {
      GrownGrows(upper, cap);
      upper := Grown(upper, cap);
      var verdict := oracle(searchIterations, upper);
      searchIterations := searchIterations + 1;
      probes := probes + [Probe(upper, verdict)];
      assert probes[|probes| - 1] == Probe(upper, verdict);
      if verdict.Threw? {
        return Err(SimulationFailed), searchIterations, probes;
      }
      if verdict.Eligible? {
        return Ok((lower, upper)), searchIterations, probes;
      }
      lower := upper;
      if upper == cap {
        return Err(NothingBelowTheCap), searchIterations, probes;
      }
    }
    r := Ok((lower, upper));
  }

  /** Phase two. The bracket stays one between an ineligible and an eligible
      probe while it is halved; an empty one is returned as it is. */
  method Bisect(lower0: int, upper0: int, iterations: nat, oracle: Oracle, ghost before: seq<Probe>, calls: nat)
    returns (r: Result<(int, int), TuneError>, searchIterations: nat, ghost probes: seq<Probe>)
    requires lower0 <= upper0 && calls == |before| && Genuine(oracle, before)
    requires lower0 < upper0 ==> Probe(lower0, Ineligible) in before && Probe(upper0, Eligible) in before
    ensures before <= probes && Genuine(oracle, probes) && searchIterations == |probes| <= |before| + iterations
    ensures lower0 == upper0 ==> r == Ok((lower0, upper0)) && probes == before
    ensures lower0 < upper0 && r.Ok? ==>
      && lower0 <= r.value.0 < r.value.1 <= upper0
      && Probe(r.value.0, Ineligible) in probes && Probe(r.value.1, Eligible) in probes
      && HalvedTimes(r.value.1 - r.value.0, upper0 - lower0, iterations)
    ensures r.Err? ==> r.error == SimulationFailed && probes != [] && probes[|probes| - 1].verdict.Threw?
  {
    var lower, upper := lower0, upper0;
    probes, searchIterations := before, calls;
    if lower < upper {
      HalvedNever(upper - lower);
    }
    for i := 0 to iterations
      invariant before <= probes && Genuine(oracle, probes) && searchIterations == |probes| <= |before| + i
      invariant lower0 <= lower <= upper <= upper0 && (lower == upper <==> lower0 == upper0)
      invariant lower0 == upper0 ==> probes == before
      invariant lower < upper ==> Probe(lower, Ineligible) in probes && Probe(upper, Eligible) in probes
      invariant lower < upper ==> HalvedTimes(upper - lower, upper0 - lower0, i)
    {
      var mid := TruncDiv(lower + upper, 2);
      if mid <= lower || mid >= upper {
        WidthOne(upper - lower, upper0 - lower0, iterations);
        return Ok((lower, upper)), searchIterations, probes;
      }
      var verdict := oracle(searchIterations, mid);
      searchIterations := searchIterations + 1;
      probes := probes + [Probe(mid, verdict)];
      assert probes[|probes| - 1] == Probe(mid, verdict);
      if verdict.Threw? {
        return Err(SimulationFailed), searchIterations, probes;
      }
      if verdict.Eligible? {
        HalvingHalves(upper - lower, mid - lower, upper0 - lower0, i);
        upper := mid;
      } else {
        HalvingHalves(upper - lower, upper - mid, upper0 - lower0, i);
        lower := mid;
      }
    }
    r := Ok((lower, upper));
  }

  lemma HalvedNever(w: int)
    ensures HalvedTimes(w, w, 0)
  {
  }

  lemma WidthOne(w: int, w0: int, n: nat)
    requires w <= 1 && (w == 1 ==> w0 >= 1) && w >= 0
    ensures w == 1 ==> HalvedTimes(w, w0, n)
  {
  }

  /** The final bracket lies within the first one, halved n times. */
  predicate Narrowed(s: Summary, lower0: int, upper0: int, n: nat) {
    && lower0 <= s.lowerProbe < s.upperProbe <= upper0
    && HalvedTimes(s.upperProbe - s.lowerProbe, upper0 - lower0, n)
  }

  /** The simulation, where it answers, depends on the amount alone. */
  ghost predicate Follows(oracle: Oracle, eligible: int -> bool) {
    forall call: nat, amount: int ::
      oracle(call, amount).Threw? || (oracle(call, amount).Eligible? <==> eligible(amount))
  }

  /** Amounts above an eligible one are eligible, and `least` is the least of them. */
  ghost predicate EligibleFrom(eligible: int -> bool, least: int) {
    forall amount :: eligible(amount) <==> least <= amount
  }

  /** Whatever the least eligible amount is, the selected one is less than `width`
      above it. */
  ghost predicate NearTheLeast(oracle: Oracle, selected: int, width: int) {
    forall eligible: int -> bool, least: int :: Follows(oracle, eligible) && EligibleFrom(eligible, least) ==>
      least <= selected < least + width
  }

  /** The growth step from lower0, halved n times and rounded up. */
  function FinalWidth(lower0: int, cap: int, n: nat): int { RoundUp(Grown(lower0, cap) - lower0, Pow2(n)) }

  lemma AnswerIsNearTheLeast(oracle: Oracle, probes: seq<Probe>, s: Summary, lower0: int, upper0: int, n: nat)
    requires Genuine(oracle, probes) && s.selected == s.upperProbe && Narrowed(s, lower0, upper0, n)
    requires Probe(s.upperProbe, Eligible) in probes && Probe(s.lowerProbe, Ineligible) in probes
    ensures NearTheLeast(oracle, s.selected, RoundUp(upper0 - lower0, Pow2(n)))
  {
    HalvedTimesMeansTheCeiling(s.upperProbe - s.lowerProbe, upper0 - lower0, n);
    var i :| 0 <= i < |probes| && probes[i] == Probe(s.lowerProbe, Ineligible);
    var k :| 0 <= k < |probes| && probes[k] == Probe(s.upperProbe, Eligible);
    assert oracle(i, s.lowerProbe).Ineligible? && oracle(k, s.upperProbe).Eligible?;
  }

  /** What is returned is an amount that was seen eligible exactly when the start
      is eligible itself or lies below the cap; a start at or above the cap is
      returned although it is not. From an ineligible start below the cap the
      search fails or ends with an eligible probe next to an ineligible one, the
      two no further apart than the last growth step halved eighteen times; so with
      a simulation that depends on the amount alone, and stays eligible above any
      eligible amount, the answer is less than that far above the least one. */
  method AutoTuneBorrowAmountWad(start: int, lendAmountWad: int, oracle: Oracle)
    returns (r: Result<Summary, TuneError>, ghost probes: seq<Probe>, ghost lower0: int)
    ensures Genuine(oracle, probes) && (r.Ok? ==> r.value.searchIterations == |probes|)
    ensures r.Ok? ==>
      (Probe(r.value.selected, Eligible) in probes <==> oracle(0, start).Eligible? || start < lendAmountWad - 1)
    ensures r.Ok? && (oracle(0, start).Eligible? || start >= lendAmountWad - 1) ==>
              r.value == Summary(start, start, start, 1)
    ensures r.Ok? && !oracle(0, start).Eligible? && start < lendAmountWad - 1 ==>
      && r.value.selected == r.value.upperProbe && Probe(r.value.lowerProbe, Ineligible) in probes
      && start <= lower0 && Narrowed(r.value, lower0, Grown(lower0, lendAmountWad - 1), BORROW_BINARY_SEARCH_ITERATIONS)
      && NearTheLeast(oracle, r.value.selected, FinalWidth(lower0, lendAmountWad - 1, BORROW_BINARY_SEARCH_ITERATIONS))
    ensures r == Err(NothingBelowTheCap) ==> start < lendAmountWad - 1 && Probe(lendAmountWad - 1, Ineligible) in probes
    ensures r == Err(SimulationFailed) ==> probes != [] && probes[|probes| - 1].verdict.Threw?
  {
    var maxBorrowAmount := lendAmountWad - 1;
    var verdict := oracle(0, start);
    probes, lower0 := [Probe(start, verdict)], start;
    assert probes[0] == Probe(start, verdict);
    if verdict.Threw? {
      return Err(SimulationFailed), probes, lower0;
    }
    if verdict.Eligible? {
      return Ok(Summary(start, start, start, 1)), probes, lower0;
    }
    r, probes, lower0 := Search(start, maxBorrowAmount, BORROW_BINARY_SEARCH_ITERATIONS, oracle, probes);
  }

  /** Both phases, after a start that is not eligible. */
  method Search(start: int, cap: int, iterations: nat, oracle: Oracle, ghost before: seq<Probe>)
    returns (r: Result<Summary, TuneError>, ghost probes: seq<Probe>, ghost lower0: int)
    requires before == [Probe(start, Ineligible)] && Genuine(oracle, before)
    ensures Genuine(oracle, probes)
    ensures start >= cap ==> r == Ok(Summary(start, start, start, 1)) && probes == before
    ensures start < cap && r.Ok? ==>
      && r.value.searchIterations == |probes| && r.value.selected == r.value.upperProbe
      && Probe(r.value.upperProbe, Eligible) in probes && Probe(r.value.lowerProbe, Ineligible) in probes
      && start <= lower0 && Narrowed(r.value, lower0, Grown(lower0, cap), iterations)
      && NearTheLeast(oracle, r.value.selected, FinalWidth(lower0, cap, iterations))
    ensures r == Err(NothingBelowTheCap) ==> start < cap && Probe(cap, Ineligible) in probes
    ensures r == Err(SimulationFailed) ==> probes != [] && probes[|probes| - 1].verdict.Threw?
  {
    var bracket, calls, grownProbes := GrowBracket(start, cap, oracle, before, 1);
    probes, lower0 := grownProbes, start;
    if bracket.Err? {
      return Err(bracket.error), probes, lower0;
    }
    var (lower, upper) := bracket.value;
    lower0 := lower;
    var found, total, allProbes := Bisect(lower, upper, iterations, oracle, probes, calls);
    probes := allProbes;
    if found.Err? {
      return Err(found.error), probes, lower0;
    }
    var summary := Summary(found.value.1, found.value.0, found.value.1, total);
    if lower < upper {
      AnswerIsNearTheLeast(oracle, probes, summary, lower, upper, iterations);
    }
    r := Ok(summary);
  }

  // ---------------------------------------------------------------- halving

  datatype Answer = Accepted | LupBelowHtp | OtherError

  datatype RemovalError = Rethrown | NoRemovableAmount

  function Halved(amount: int, k: nat): int {
    if k == 0 then amount else TruncDiv(Halved(amount, k - 1), 2)
  }

  lemma TruncatingNaturals(x: nat, d: nat)
    requires d > 0
    ensures TruncDiv(x, d) == x / d
  {
  }

  lemma {:induction false} HalvedIsTheQuotient(amount: nat, k: nat)
    ensures Halved(amount, k) == amount / Pow2(k)
  {
    if k > 0 {
      HalvedIsTheQuotient(amount, k - 1);
      HalveOnce(amount, Pow2(k - 1), Halved(amount, k - 1));
    }
  }

  lemma HalveOnce(amount: nat, p: nat, half: int)
    requires p > 0 && half == amount / p
    ensures TruncDiv(half, 2) == amount / (2 * p)
  {
    DivideTwice(amount, p, 2);
    TruncatingNaturals(half, 2);
  }

  /** The first k halvings are positive and were refused for leaving the LUP
      below the HTP. */
  ghost predicate RefusedUpTo(max: int, k: nat, oracle: (nat, int) -> Answer) {
    forall j: nat :: j < k ==> Halved(max, j) > 0 && oracle(j, Halved(max, j)).LupBelowHtp?
  }

  /** What the answer to the halving number k makes of the search. */
  ghost predicate Decides(max: int, k: nat, oracle: (nat, int) -> Answer, r: Result<int, RemovalError>) {
    match r
    case Ok(amount) => amount == Halved(max, k) > 0 && oracle(k, amount).Accepted?
    case Err(Rethrown) => Halved(max, k) > 0 && oracle(k, Halved(max, k)).OtherError?
    case Err(NoRemovableAmount) => Halved(max, k) <= 0
  }

  /** The first halving that is not refused decides; when all positive ones are
      refused nothing can be removed. */
  method ResolveSafeQuoteRemovalAmount(max: int, oracle: (nat, int) -> Answer) returns (r: Result<int, RemovalError>)
    ensures exists k: nat :: RefusedUpTo(max, k, oracle) && Decides(max, k, oracle, r)
  {
    var candidate := max;
    var calls: nat := 0;
    while candidate > 0
      invariant candidate == Halved(max, calls) && RefusedUpTo(max, calls, oracle)
      decreases candidate
    {
      match oracle(calls, candidate)
      case Accepted =>
        assert Decides(max, calls, oracle, Ok(candidate));
        return Ok(candidate);
      case OtherError =>
        assert Decides(max, calls, oracle, Err(Rethrown));
        return Err(Rethrown);
      case LupBelowHtp =>
        candidate := TruncDiv(candidate, 2);
        calls := calls + 1;
    }
    r := Err(NoRemovableAmount);
    assert Decides(max, calls, oracle, r);
  }

  lemma {:induction false} HalvedShrinks(amount: int, j: nat, k: nat)
    requires j <= k && amount >= 0
    ensures 0 <= Halved(amount, k) <= Halved(amount, j)
  {
    if j < k {
      HalvedShrinks(amount, j, k - 1);
    } else if j > 0 {
      HalvedShrinks(amount, j - 1, k - 1);
    }
  }

  /** For answers that depend on the amount alone: what is returned is the largest
      acceptable halving, and finding none means that none is acceptable. */
  lemma TheLargestAcceptedHalving(
      max: nat, k: nat, oracle: (nat, int) -> Answer, answer: int -> Answer, r: Result<int, RemovalError>)
    requires forall i: nat, amount: int :: oracle(i, amount) == answer(amount)
    requires RefusedUpTo(max, k, oracle) && Decides(max, k, oracle, r)
    ensures r.Ok? ==> answer(r.value).Accepted?
    ensures r.Ok? ==>
              forall j: nat :: Halved(max, j) > 0 && answer(Halved(max, j)).Accepted? ==> Halved(max, j) <= r.value
    ensures r == Err(NoRemovableAmount) ==> forall j: nat :: Halved(max, j) > 0 ==> !answer(Halved(max, j)).Accepted?
  {
    forall j: nat | Halved(max, j) > 0 && answer(Halved(max, j)).Accepted?
      ensures k <= j && Halved(max, j) <= Halved(max, k)
    {
      assert oracle(j, Halved(max, j)).Accepted?;
      HalvedShrinks(max, k, j);
    }
  }
}
