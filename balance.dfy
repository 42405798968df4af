/** Premium subscriptions: the four plans and their prices in UZS, the localized
    period names, the plan picked from a button payload, the amount shown with
    thousands separators, the "already premium" screen and the activation that marks
    a user premium. */
module Balance {
  import opened Common

  // ---------------------------------------------------------------------------
  // Plans

  /** `PREMIUM_PRICES`, in UZS. */
  const PremiumPrices: map<string, nat> := map["1_month" := 15000, "3_months" := 40000, "6_months" := 75000, "1_year" := 140000]

  /** Exactly four plans; a longer period never costs less. */
  lemma PlansFacts()
    ensures PremiumPrices.Keys == {"1_month", "3_months", "6_months", "1_year"}
    ensures |PremiumPrices.Keys| == 4
    ensures PremiumPrices["1_month"] < PremiumPrices["3_months"] < PremiumPrices["6_months"] < PremiumPrices["1_year"]
  {
    assert PremiumPrices.Keys == {"1_month", "3_months", "6_months", "1_year"};
  }

  /** `get_period_name(plan_key, lang)`: the plan's name in the language, English for
      another language, and the key itself for a key without a name. */
  function PeriodName(planKey: string, code: string): (name: string)
    ensures planKey !in PremiumPrices ==> name == planKey
  {
    var names :=
      match LangOf(code)
      case Uz => map["1_month" := "1 oy", "3_months" := "3 oy", "6_months" := "6 oy", "1_year" := "1 yil"]
      case Ru => map["1_month" := "1 месяц", "3_months" := "3 месяца", "6_months" := "6 месяцев", "1_year" := "1 год"]
      case En => map["1_month" := "1 month", "3_months" := "3 months", "6_months" := "6 months", "1_year" := "1 year"];
    if planKey in names then names[planKey] else planKey
  }

  /** Every plan has a name of its own in every language, and any other language
      reads as English. */
  lemma PeriodNameFacts(planKey: string, code: string)
    ensures planKey in PremiumPrices ==> PeriodName(planKey, code) != planKey
    ensures code != "uz" && code != "ru" ==> PeriodName(planKey, code) == PeriodName(planKey, "en")
  {
  }

  // ---------------------------------------------------------------------------
  // Choosing a plan

  const SubscribePrefix: string := "subscribe_"

  /** The plan key and its price for a button payload: every `subscribe_` is
      removed, and a key that is not a plan is rejected (None). */
  function SelectPlan(data: string): (r: Option<(string, nat)>)
    ensures r.Some? <==> RemoveAll(data, SubscribePrefix) in PremiumPrices
    ensures r.Some? ==> r.value.0 in PremiumPrices && r.value.1 == PremiumPrices[r.value.0]
  {
    var key := RemoveAll(data, SubscribePrefix);
    if key in PremiumPrices then Some((key, PremiumPrices[key])) else None
  }

  lemma {:induction false} RemoveAllShort(s: string, pat: string)
    requires 0 < |pat| && |s| < |pat|
    ensures RemoveAll(s, pat) == s
    decreases |s|
  {
    if |s| > 0 {
      RemoveAllShort(s[1..], pat);
      assert [s[0]] + s[1..] == s;
    }
  }

  /** Every plan button selects its own plan. */
  lemma SelectPlanRoundTrip(key: string)
    requires key in PremiumPrices
    ensures SelectPlan(SubscribePrefix + key) == Some((key, PremiumPrices[key]))
  {
    var s := SubscribePrefix + key;
    assert StartsWith(s, SubscribePrefix);
    assert s[|SubscribePrefix|..] == key;
    assert |key| < |SubscribePrefix|;
    RemoveAllShort(key, SubscribePrefix);
  }

  /** Because every occurrence is removed, a payload with the prefix repeated still
      selects the plan. */
  lemma RepeatedPrefixAccepted(key: string)
    requires key in PremiumPrices
    ensures SelectPlan(SubscribePrefix + SubscribePrefix + key) == Some((key, PremiumPrices[key]))
  {
    var s := SubscribePrefix + SubscribePrefix + key;
    assert StartsWith(s, SubscribePrefix);
    assert s[|SubscribePrefix|..] == SubscribePrefix + key;
    SelectPlanRoundTrip(key);
  }

  // ---------------------------------------------------------------------------
  // Amounts

  /** Three digits, with leading zeros. */
  function Pad3(r: nat): (s: string)
    requires r < 1000
    ensures |s| == 3 && AllDigits(s)
  {
    [DigitChar(r / 100), DigitChar((r / 10) % 10), DigitChar(r % 10)]
  }

  /** `f"{n:,}"`: the decimal digits in groups of three, separated by commas. */
  function FormatThousands(n: nat): (s: string)
    ensures |s| >= 1
    decreases n
  {
    if n < 1000 then NatToString(n) else FormatThousands(n / 1000) + "," + Pad3(n % 1000)
  }

  /** The text with its commas taken out. */
  function WithoutCommas(s: string): (t: string)
    ensures |t| <= |s|
    decreases |s|
  {
    if s == [] then [] else WithoutCommas(s[..|s| - 1]) + (if s[|s| - 1] == ',' then [] else [s[|s| - 1]])
  }

  lemma {:induction false} WithoutCommasAppend(a: string, b: string)
    ensures WithoutCommas(a + b) == WithoutCommas(a) + WithoutCommas(b)
    decreases |b|
  {
    if b != [] {
      assert (a + b)[..|a + b| - 1] == a + b[..|b| - 1];
      WithoutCommasAppend(a, b[..|b| - 1]);
    } else {
      assert a + b == a;
    }
  }

  lemma {:induction false} WithoutCommasDigits(s: string)
    requires AllDigits(s)
    ensures WithoutCommas(s) == s
    decreases |s|
  {
    if s != [] {
      WithoutCommasDigits(s[..|s| - 1]);
    }
  }

  function Pow10(k: nat): (p: nat)
    ensures p >= 1
  {
    if k == 0 then 1 else 10 * Pow10(k - 1)
  }

  lemma {:induction false} DigitsValueAppend(a: string, b: string)
    requires AllDigits(a) && AllDigits(b)
    ensures AllDigits(a + b)
    ensures DigitsValue(a + b) == DigitsValue(a) * Pow10(|b|) + DigitsValue(b)
    decreases |b|
  {
    if b == [] {
      assert a + b == a;
    } else {
      var b' := b[..|b| - 1];
      var d := DigitValue(b[|b| - 1]);
      assert (a + b)[..|a + b| - 1] == a + b';
      assert (a + b)[|a + b| - 1] == b[|b| - 1];
      DigitsValueAppend(a, b');
      var x, p, y := DigitsValue(a), Pow10(|b'|), DigitsValue(b');
      assert DigitsValue(a + b) == (x * p + y) * 10 + d;
      ShiftDigit(x, p, y, d);
      assert Pow10(|b|) == 10 * p;
    }
  }

  lemma ShiftDigit(x: int, p: int, y: int, d: int)
    ensures (x * p + y) * 10 + d == x * (10 * p) + (y * 10 + d)
  {
  }

  lemma Pad3Value(r: nat)
    requires r < 1000
    ensures DigitsValue(Pad3(r)) == r
  {
    var a, b, c := r / 100, (r / 10) % 10, r % 10;
    ThreeDigitsValue(a, b, c);
    assert r / 10 == a * 10 + b;
  }

  lemma ThreeDigitsValue(a: nat, b: nat, c: nat)
    requires a < 10 && b < 10 && c < 10
    ensures DigitsValue([DigitChar(a), DigitChar(b), DigitChar(c)]) == (a * 10 + b) * 10 + c
  {
    var s := [DigitChar(a), DigitChar(b), DigitChar(c)];
    DigitRoundTrip(a);
    DigitRoundTrip(b);
    DigitRoundTrip(c);
    assert s[..1][..0] == [];
    assert DigitsValue(s[..1]) == a;
    assert s[..2][..1] == s[..1];
    assert DigitsValue(s[..2]) == a * 10 + b;
    assert s[..3][..2] == s[..2];
  }

  /** Reading the digits back, commas ignored, gives the amount. */
  lemma {:induction false} FormatThousandsValue(n: nat)
    ensures AllDigits(WithoutCommas(FormatThousands(n)))
    ensures DigitsValue(WithoutCommas(FormatThousands(n))) == n
    decreases n
  {
    if n < 1000 {
      WithoutCommasDigits(NatToString(n));
      DigitsValueOfNatToString(n);
    } else {
      var head := FormatThousands(n / 1000);
      var pad := Pad3(n % 1000);
      FormatThousandsValue(n / 1000);
      var digits := WithoutCommas(head);
      WithoutCommasAppend(head + ",", pad);
      WithoutCommasAppend(head, ",");
      WithoutCommasDigits(pad);
      assert WithoutCommas(",") == [];
      assert head + "," + pad == FormatThousands(n);
      assert WithoutCommas(FormatThousands(n)) == digits + pad;
      DigitsValueAppend(digits, pad);
      Pad3Value(n % 1000);
      assert Pow10(|pad|) == 1000;
      assert DigitsValue(digits + pad) == (n / 1000) * 1000 + n % 1000;
    }
  }

  lemma NatToStringShort(n: nat)
    requires n < 1000
    ensures |NatToString(n)| <= 3
  {
    if n >= 10 {
      assert |NatToString(n)| == |NatToString(n / 10)| + 1;
      if n / 10 >= 10 {
        assert |NatToString(n / 10)| == |NatToString(n / 100)| + 1;
      }
    }
  }

  /** The commas split the text into a leading group of one to three digits and
      groups of exactly three digits after it. */
  lemma {:induction false} FormatThousandsGroups(n: nat)
    ensures var parts := Split(FormatThousands(n), ',');
            1 <= |parts[0]| <= 3 && AllDigits(parts[0])
            && forall i :: 1 <= i < |parts| ==> |parts[i]| == 3 && AllDigits(parts[i])
    decreases n
  {
    if n < 1000 {
      var t := NatToString(n);
      assert ',' !in t by {
        assert forall i :: 0 <= i < |t| ==> IsDigit(t[i]);
      }
      SplitNoSeparator(t, ',');
      NatToStringShort(n);
    } else {
      var head := FormatThousands(n / 1000);
      var pad := Pad3(n % 1000);
      FormatThousandsGroups(n / 1000);
      assert ',' !in pad by {
        assert forall i :: 0 <= i < |pad| ==> IsDigit(pad[i]);
      }
      SplitNoSeparator(pad, ',');
      assert FormatThousands(n) == head + [','] + pad;
      SplitAppend(head, ',', pad);
      var hp := Split(head, ',');
      assert hp[..|hp| - 1] + [hp[|hp| - 1]] == hp;
      assert Split(FormatThousands(n), ',') == hp + [pad];
    }
  }

  /** The four prices as shown. */
  lemma PricesShown()
    ensures FormatThousands(15000) == "15,000"
    ensures FormatThousands(40000) == "40,000"
    ensures FormatThousands(75000) == "75,000"
    ensures FormatThousands(140000) == "140,000"
  {
    assert Pad3(0) == "000";
    ThousandsShown(15, "15");
    ThousandsShown(40, "40");
    ThousandsShown(75, "75");
    assert NatToString(14) == "14";
    ThousandsShown(140, "140");
  }

  /** A whole number of thousands below a million is its thousands, a comma and "000". */
  lemma ThousandsShown(k: nat, text: string)
    requires 1 <= k < 1000 && NatToString(k) == text
    ensures FormatThousands(k * 1000) == text + ",000"
  {
    assert (k * 1000) / 1000 == k && (k * 1000) % 1000 == 0;
    assert Pad3(0) == "000";
  }

  // ---------------------------------------------------------------------------
  // Premium state

  /** A user's premium columns: the flag (NULL as None) and the expiry day. */
  datatype Premium = Premium(isPremium: Option<bool>, until: Option<int>)

  /** The premium screen shows "already premium" only for a set flag with an expiry;
      otherwise (or when the lookup fails) it shows the plans. */
  predicate ShowsAlreadyPremium(row: Option<Premium>, fault: bool)
  {
    !fault && row.Some? && row.value.isPremium == Some(true) && row.value.until.Some?
  }

  /** The premium columns of `friends_users`. */
  class PremiumTable {
    var rows: map<int, Premium>

    constructor ()
      ensures rows == map[]
    {
      rows := map[];
    }

    /** `activate_premium(user, months)` with the expiry day computed by the caller:
        the user's row gets the flag and the expiry, and the call reports success; an
        update that matches no row changes nothing but still succeeds; a store
        failure changes nothing and reports False. */
    method Activate(user: int, expiry: int, fault: bool) returns (ok: bool)
      modifies this
      ensures ok <==> !fault
      ensures !fault && user in old(rows) ==> rows == old(rows)[user := Premium(Some(true), Some(expiry))]
      ensures fault || user !in old(rows) ==> rows == old(rows)
    {
      if fault {
        return false;
      }
      if user in rows {
        rows := rows[user := Premium(Some(true), Some(expiry))];
      }
      return true;
    }
  }

  /** A successful activation of a known user turns their premium screen into the
      "already premium" screen. */
  method ActivateThenShow(table: PremiumTable, user: int, expiry: int) returns (shown: bool)
    requires user in table.rows
    modifies table
    ensures shown
  {
    var ok := table.Activate(user, expiry, false);
    shown := ShowsAlreadyPremium(if user in table.rows then Some(table.rows[user]) else None, false);
  }
}
