/**
 Quote arithmetic: `calculateQuoteAmounts` in services/otc-api/src/quote-engine.ts and trade-service.ts.

 `SplitFills` bounds what is lost when a whole is quoted in parts; `SplitBoundIsTight` shows the first bound is reached.
 */
module Quotes {
  import opened Wrappers
  import opened Amounts

  datatype QuoteAmounts = QuoteAmounts(amountPrl: string, amountUsdc: string, feePrl: string, feeUsdc: string, priceUsdcPerPrl: string)

  const GRAINS_PER_PRL := 100_000_000
  const BPS := 10_000

  function UsdcMicros(grains: nat, priceMicros: nat): nat {
    grains * priceMicros / GRAINS_PER_PRL
  }

  function FeeMicros(usdcMicros: nat, feeBps: nat): nat {
    usdcMicros * feeBps / BPS
  }

  function CalculateQuoteAmounts(amountPrl: string, priceUsdcPerPrl: string, feeBps: nat): Result<QuoteAmounts> {
    var grains, price := ParseDecimalToUnits(amountPrl, 8), ParseDecimalToUnits(priceUsdcPerPrl, 6);
    if grains.Thrown? || price.Thrown? then Thrown
    else
      var usdc := UsdcMicros(grains.value, price.value);
      Ok(QuoteAmounts(
           FormatUnitsToDecimal(grains.value, 8).value, FormatUnitsToDecimal(usdc, 6).value, "0.00000000",
           FormatUnitsToDecimal(FeeMicros(usdc, feeBps), 6).value, priceUsdcPerPrl))
  }

  /** What a quote says of so many grains at a price in micros: the charge is the floor of their product, the fee the floor
      of its share, no fee is taken in PRL, and the price stands as it was given. */
  ghost predicate Charges(q: QuoteAmounts, grains: nat, priceUsdcPerPrl: string, feeBps: nat) {
    && ParseDecimalToUnits(q.amountPrl, 8) == Ok(grains) && ParseDecimalToUnits(priceUsdcPerPrl, 6).Ok?
    && ParseDecimalToUnits(q.amountUsdc, 6).Ok? && ParseDecimalToUnits(q.feeUsdc, 6).Ok?
    && q.feePrl == "0.00000000" && q.priceUsdcPerPrl == priceUsdcPerPrl
    && var p, u, f := ParseDecimalToUnits(priceUsdcPerPrl, 6).value, ParseDecimalToUnits(q.amountUsdc, 6).value, ParseDecimalToUnits(q.feeUsdc, 6).value;
       && u * GRAINS_PER_PRL <= grains * p < (u + 1) * GRAINS_PER_PRL
       && f * BPS <= u * feeBps < (f + 1) * BPS
       && (feeBps <= BPS ==> f <= u)
  }

  /** The amounts of a quote read back as whole units, and the fee never exceeds the charge while `feeBps` is at most 10000. */
  lemma QuoteReadsBack(amountPrl: string, priceUsdcPerPrl: string, feeBps: nat)
    ensures CalculateQuoteAmounts(amountPrl, priceUsdcPerPrl, feeBps).Ok? <==>
      ParseDecimalToUnits(amountPrl, 8).Ok? && ParseDecimalToUnits(priceUsdcPerPrl, 6).Ok?
    ensures CalculateQuoteAmounts(amountPrl, priceUsdcPerPrl, feeBps).Ok? ==>
      Charges(CalculateQuoteAmounts(amountPrl, priceUsdcPerPrl, feeBps).value,
              ParseDecimalToUnits(amountPrl, 8).value, priceUsdcPerPrl, feeBps)
  {
    hide ParseDecimalToUnits, FormatUnitsToDecimal;
    if CalculateQuoteAmounts(amountPrl, priceUsdcPerPrl, feeBps).Ok? {
      var g, p := ParseDecimalToUnits(amountPrl, 8).value, ParseDecimalToUnits(priceUsdcPerPrl, 6).value;
      var u := UsdcMicros(g, p);
      ParseFormat(g, 8);
      ParseFormat(u, 6);
      ParseFormat(FeeMicros(u, feeBps), 6);
      if feeBps <= BPS { FeeAtMost(u, feeBps); }
    }
  }

  lemma FeeAtMost(u: nat, feeBps: nat)
    requires feeBps <= BPS
    ensures FeeMicros(u, feeBps) <= u
  {
    assert u * feeBps <= u * BPS;
  }

  // ---- Partial fills ----

  function Sum(parts: seq<nat>): nat {
    if parts == [] then 0 else Sum(parts[..|parts| - 1]) + parts[|parts| - 1]
  }

  function SumUsdc(parts: seq<nat>, priceMicros: nat): nat {
    if parts == [] then 0 else SumUsdc(parts[..|parts| - 1], priceMicros) + UsdcMicros(parts[|parts| - 1], priceMicros)
  }

  function SumFees(parts: seq<nat>, priceMicros: nat, feeBps: nat): nat {
    if parts == [] then 0
    else SumFees(parts[..|parts| - 1], priceMicros, feeBps) + FeeMicros(UsdcMicros(parts[|parts| - 1], priceMicros), feeBps)
  }

  /** What the parts are charged, against the exact product: each floor loses less than one micro. */
  lemma {:induction false} SumUsdcBounds(parts: seq<nat>, price: nat)
    ensures SumUsdc(parts, price) * GRAINS_PER_PRL <= Sum(parts) * price
    ensures Sum(parts) * price <= SumUsdc(parts, price) * GRAINS_PER_PRL + |parts| * (GRAINS_PER_PRL - 1)
  {
    if parts != [] {
      var n := |parts| - 1;
      SumUsdcBounds(parts[..n], price);
      var rest, last := Sum(parts[..n]), parts[n];
      assert (rest + last) * price == rest * price + last * price;
      var u := UsdcMicros(last, price);
      assert last * price == u * GRAINS_PER_PRL + last * price % GRAINS_PER_PRL;
    }
  }

  lemma {:induction false} SumFeesBounds(parts: seq<nat>, price: nat, feeBps: nat)
    ensures SumFees(parts, price, feeBps) * BPS <= SumUsdc(parts, price) * feeBps
    ensures SumUsdc(parts, price) * feeBps <= SumFees(parts, price, feeBps) * BPS + |parts| * (BPS - 1)
  {
    if parts != [] {
      var n := |parts| - 1;
      SumFeesBounds(parts[..n], price, feeBps);
      var rest, u := SumUsdc(parts[..n], price), UsdcMicros(parts[n], price);
      assert (rest + u) * feeBps == rest * feeBps + u * feeBps;
      assert u * feeBps == FeeMicros(u, feeBps) * BPS + u * feeBps % BPS;
    }
  }

  /** Quoting a whole in k parts never charges more USDC than quoting it at once and falls short by fewer than k
      micros; the fees never exceed the whole's fee, and fall short by at most 2k - 2 while `feeBps` is at most 10000. */
  lemma SplitFills(parts: seq<nat>, price: nat, feeBps: nat)
    requires parts != []
    ensures var whole := UsdcMicros(Sum(parts), price);
      && SumUsdc(parts, price) <= whole < SumUsdc(parts, price) + |parts|
      && SumFees(parts, price, feeBps) <= FeeMicros(whole, feeBps)
      && (FeeMicros(whole, feeBps) - SumFees(parts, price, feeBps)) * BPS <= |parts| * (BPS - 1) + (|parts| - 1) * feeBps
      && (feeBps <= BPS ==> FeeMicros(whole, feeBps) <= SumFees(parts, price, feeBps) + 2 * |parts| - 2)
  {
    hide SumUsdc, SumFees, Sum;
    SumUsdcBounds(parts, price);
    SumFeesBounds(parts, price, feeBps);
    var k, whole, part := |parts|, UsdcMicros(Sum(parts), price), SumUsdc(parts, price);
    assert whole * GRAINS_PER_PRL <= Sum(parts) * price < (whole + 1) * GRAINS_PER_PRL;
    FeeOfWhole(whole, part, k, feeBps, SumFees(parts, price, feeBps));
  }

  lemma FeeOfWhole(whole: nat, part: nat, k: nat, feeBps: nat, fees: nat)
    requires part <= whole < part + k
    requires fees * BPS <= part * feeBps <= fees * BPS + k * (BPS - 1)
    ensures fees <= FeeMicros(whole, feeBps)
    ensures (FeeMicros(whole, feeBps) - fees) * BPS <= k * (BPS - 1) + (k - 1) * feeBps
    ensures feeBps <= BPS ==> FeeMicros(whole, feeBps) <= fees + 2 * k - 2
  {
    var gap := whole - part;
    assert whole * feeBps == part * feeBps + gap * feeBps;
    Scales(gap, k - 1, feeBps);
    var f := FeeMicros(whole, feeBps);
    assert f * BPS <= whole * feeBps < (f + 1) * BPS;
    if feeBps <= BPS { Scales(feeBps, BPS, k - 1); }
  }

  lemma Scales(a: nat, b: nat, c: nat)
    requires a <= b
    ensures 0 <= a * c <= b * c
  {
  }

  function OneGrainFills(k: nat): seq<nat> {
    seq(k, _ => 1)
  }

  lemma {:induction false} OneGrainSums(k: nat)
    ensures Sum(OneGrainFills(k)) == k && SumUsdc(OneGrainFills(k), 99_999_999) == 0
  {
    if k > 0 {
      OneGrainSums(k - 1);
      assert OneGrainFills(k)[..k - 1] == OneGrainFills(k - 1);
    }
  }

  /** The bound is reached: k fills of one grain at 99.999999 USDC fall short by exactly k - 1 micros. */
  lemma SplitBoundIsTight(k: nat)
    requires 1 <= k <= GRAINS_PER_PRL
    ensures UsdcMicros(Sum(OneGrainFills(k)), 99_999_999) == SumUsdc(OneGrainFills(k), 99_999_999) + k - 1
  {
    OneGrainSums(k);
    assert k * 99_999_999 == (k - 1) * GRAINS_PER_PRL + (GRAINS_PER_PRL - k);
  }
}
