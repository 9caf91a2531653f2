/** An integer reference for `formatAmount(amount, 2)`: the amount in wei is
    scaled by 10^18 and rendered with two fractional digits, rounding half up
    (half away from zero for negative amounts). */
module AmountFormat {
  import opened Text
  import opened TransportUtils
  import opened EndpointBalance

  /** 10^16 wei: one hundredth of an ether. */
  const WeiPerCent: nat := 10_000_000_000_000_000

  /** The amount in hundredths of an ether, rounded to nearest with ties up. */
  function RoundedCents(amount: nat): nat {
    (amount + WeiPerCent / 2) / WeiPerCent
  }

  function TwoDigits(n: nat): (s: string)
    requires n < 100
    ensures |s| == 2 && AllDigits(s)
  {
    [DigitChar(n / 10), DigitChar(n % 10)]
  }

  function FormatAmount(amount: int): string {
    var cents := RoundedCents(if amount < 0 then -amount else amount);
    (if amount < 0 then "-" else "") + NatToString(cents / 100) + "." + TwoDigits(cents % 100)
  }

  /** The rounding is to the nearest hundredth: the rounded value is within half a
      hundredth of the exact amount. */
  lemma RoundedCentsNearest(amount: nat)
    ensures RoundedCents(amount) * WeiPerCent <= amount + WeiPerCent / 2
    ensures amount + WeiPerCent / 2 < RoundedCents(amount) * WeiPerCent + WeiPerCent
  {
    var c := RoundedCents(amount);
    var r := (amount + WeiPerCent / 2) % WeiPerCent;
    assert amount + WeiPerCent / 2 == c * WeiPerCent + r;
  }

  /** The reading back of a rendering: the integer part's digits and the two
      fractional digits give the rounded value. */
  lemma {:induction false} FormatAmountReadsBack(amount: nat)
    ensures var s := FormatAmount(amount);
      exists k :: 0 < k < |s| && s[k] == '.' && AllDigits(s[..k]) && AllDigits(s[k + 1..])
        && ParseNat(s[..k]) * 100 + ParseNat(s[k + 1..]) == RoundedCents(amount)
  {
    var cents := RoundedCents(amount);
    var whole := NatToString(cents / 100);
    var frac := TwoDigits(cents % 100);
    var s := FormatAmount(amount);
    assert s == whole + "." + frac;
    NatToStringRoundTrip(cents / 100);
    var k := |whole|;
    assert s[..k] == whole;
    assert s[k + 1..] == frac;
    var m := cents % 100;
    assert frac[..1] == [frac[0]] && [frac[0]][..0] == [];
    assert DigitValue(frac[0]) == m / 10 && DigitValue(frac[1]) == m % 10;
    assert ParseNat([frac[0]]) == m / 10;
    assert ParseNat(frac) == (m / 10) * 10 + m % 10 == m;
  }

  /** The amounts of the integration test's two addresses. */
  const FirstBalance: int := 0xcad022c33a96152a
  const SecondBalance: int := 0xad8655682813b7b

  /** The per-address values render as "14.61" and "0.78".  Their aggregate is
      "15.40", the rounding of the exact sum; adding the rounded values would
      give 15.39 instead. */
  lemma IntegrationTestAmounts()
    ensures FormatAmount(FirstBalance) == "14.61"
    ensures FormatAmount(SecondBalance) == "0.78"
    ensures FormatAmount(FirstBalance + SecondBalance) == "15.40"
    ensures RoundedCents(FirstBalance) + RoundedCents(SecondBalance) == 1539
  {
    assert RoundedCents(FirstBalance) == 1461;
    assert RoundedCents(SecondBalance) == 78;
    assert RoundedCents(FirstBalance + SecondBalance) == 1540;
    assert NatToString(14) == "14";
    assert NatToString(15) == "15";
    assert NatToString(0) == "0";
  }

  /** The response of the two-address integration test carries "15.40". */
  lemma IntegrationTestResponse(a: AddressInfo, b: AddressInfo, provider: Provider, now: int)
    requires provider(QueryFor(a)) == Fetched(FirstBalance) && provider(QueryFor(b)) == Fetched(SecondBalance)
    ensures var r := GetBalances([a, b], provider, FormatAmount);
      && r.Success?
      && r.value.results == [AddressBalance(a.address, "14.61"), AddressBalance(b.address, "0.78")]
      && MakeResponse(r.value.balances, r.value.results, FormatAmount, now).result == "15.40"
  {
    TwoAddressAggregate(a, b, provider, FormatAmount, now);
    IntegrationTestAmounts();
  }
}
