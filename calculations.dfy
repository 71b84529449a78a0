/** The dashboard's aggregate figures and per-product status
    (src/utils/calculations.ts). Every function here is total. */
module Calculations {
  import opened Types

  /** The per-product quantity a fold adds up. */
  datatype Measure = StockOf | DemandOf | FilledOf

  /** The amount of `m` that product `p` contributes; the filled amount is
      the part of the demand that the stock covers. */
  function Amount(p: Product, m: Measure): int
  {
    match m
    case StockOf => p.stock
    case DemandOf => p.demand
    case FilledOf => if p.stock < p.demand then p.stock else p.demand
  }

  /** `reduce((total, p) => total + amount(p), 0)`: a left fold, so the
      last product is the last one added. With no negative amount the sum
      is not negative, and with every amount 0 it is 0. */
  function Sum(ps: seq<Product>, m: Measure): (r: int)
    ensures (forall i :: 0 <= i < |ps| ==> Amount(ps[i], m) >= 0) ==> r >= 0
    ensures (forall i :: 0 <= i < |ps| ==> Amount(ps[i], m) == 0) ==> r == 0
  {
    if ps == [] then 0
    else
      var init := ps[..|ps| - 1];
      assert forall i :: 0 <= i < |init| ==> init[i] == ps[i];
      Sum(init, m) + Amount(ps[|ps| - 1], m)
  }

  predicate QuantitiesNonNegative(ps: seq<Product>)
  {
    forall i :: 0 <= i < |ps| ==> ps[i].stock >= 0 && ps[i].demand >= 0
  }

  /** `calculateTotalStock`. */
  function TotalStock(ps: seq<Product>): (r: int)
    ensures ps == [] ==> r == 0
    ensures QuantitiesNonNegative(ps) ==> r >= 0
  {
    Sum(ps, StockOf)
  }

  /** `calculateTotalDemand`; 0 also when every demand is 0. */
  function TotalDemand(ps: seq<Product>): (r: int)
    ensures ps == [] ==> r == 0
    ensures QuantitiesNonNegative(ps) ==> r >= 0
    ensures (forall i :: 0 <= i < |ps| ==> ps[i].demand == 0) ==> r == 0
  {
    Sum(ps, DemandOf)
  }

  /** Each product contributes no more filled amount than its demand and
      its stock. */
  lemma {:induction false} FilledBounds(ps: seq<Product>)
    ensures Sum(ps, FilledOf) <= Sum(ps, DemandOf)
    ensures Sum(ps, FilledOf) <= Sum(ps, StockOf)
  {
    if ps != [] {
      FilledBounds(ps[..|ps| - 1]);
    }
  }

  /** Σ min(stock, demand): the demand the stock covers, never more than
      the total demand or the total stock. */
  function FilledDemand(ps: seq<Product>): (r: int)
    ensures r <= TotalDemand(ps) && r <= TotalStock(ps)
    ensures QuantitiesNonNegative(ps) ==> r >= 0
  {
    FilledBounds(ps);
    Sum(ps, FilledOf)
  }

  /** The folds are additive over concatenation; with `Sum([]) == 0` and
      the one-element case this pins the sum down as the plain sum of the
      field, in whatever way the list is split. */
  lemma {:induction false} SumAppend(a: seq<Product>, b: seq<Product>, m: Measure)
    ensures Sum(a + b, m) == Sum(a, m) + Sum(b, m)
    decreases |b|
  {
    if b == [] {
      assert a + b == a;
    } else {
      var b' := b[..|b| - 1];
      assert (a + b)[..|a + b| - 1] == a + b';
      SumAppend(a, b', m);
    }
  }

  lemma SumSingleton(p: Product, m: Measure)
    ensures Sum([p], m) == Amount(p, m)
  {
    assert [p][..0] == [];
  }

  /** Both totals of the empty list are zero. */
  lemma EmptyTotals()
    ensures TotalStock([]) == 0 && TotalDemand([]) == 0 && FilledDemand([]) == 0
  {
  }

  /** `Math.round(p / q)` on exact rationals: the integer `r` with
      r - 1/2 <= p/q < r + 1/2, ties going up. */
  function RoundHalfUp(p: int, q: int): (r: int)
    requires q != 0
    ensures q > 0 ==> 2 * q * r - q <= 2 * p < 2 * q * r + q
    ensures q < 0 ==> 2 * q * r - q >= 2 * p > 2 * q * r + q
  {
    if q > 0 then
      var n, d := 2 * p + q, 2 * q;
      assert n == (n / d) * d + n % d;
      n / d
    else
      var n, d := -2 * p - q, -2 * q;
      assert n == (n / d) * d + n % d;
      n / d
  }

  /** The fill rate as a whole percentage: 100 when there is no demand,
      otherwise 100 · Σmin(stock, demand) / Σdemand rounded half up. */
  function FillRate(ps: seq<Product>): (r: int)
    ensures TotalDemand(ps) == 0 ==> r == 100
    ensures TotalDemand(ps) > 0 ==>
      2 * TotalDemand(ps) * r - TotalDemand(ps) <= 200 * FilledDemand(ps)
                                               < 2 * TotalDemand(ps) * r + TotalDemand(ps)
    ensures TotalDemand(ps) < 0 ==>
      2 * TotalDemand(ps) * r - TotalDemand(ps) >= 200 * FilledDemand(ps)
                                               > 2 * TotalDemand(ps) * r + TotalDemand(ps)
  {
    var total := TotalDemand(ps);
    if total == 0 then 100 else RoundHalfUp(100 * FilledDemand(ps), total)
  }

  /** A list whose every demand is 0 has fill rate 100. */
  lemma ZeroDemandFillRate(ps: seq<Product>)
    requires forall i :: 0 <= i < |ps| ==> ps[i].demand == 0
    ensures FillRate(ps) == 100
  {
  }

  /** With non-negative quantities the fill rate is a percentage. */
  lemma FillRateIsPercentage(ps: seq<Product>)
    requires QuantitiesNonNegative(ps)
    ensures 0 <= FillRate(ps) <= 100
  {
    var t, f, r := TotalDemand(ps), FilledDemand(ps), FillRate(ps);
    if t != 0 {
      RoundedRatioBounds(t, f, r);
    }
  }

  /** A rounded ratio f / t with 0 <= f <= t lies between 0 and 100 percent. */
  lemma RoundedRatioBounds(t: int, f: int, r: int)
    requires 0 <= f <= t && t > 0
    requires 2 * t * r - t <= 200 * f < 2 * t * r + t
    ensures 0 <= r <= 100
  {
    if r > 100 {
      MulMonotone(t, 101, r);
    } else if r < 0 {
      MulMonotone(t, r, -1);
    }
  }

  lemma MulMonotone(t: int, a: int, b: int)
    requires t >= 0 && a <= b
    ensures t * a <= t * b
  {
  }

  /** The classification rule: exactly one of the three holds, decided by
      comparing stock with demand. */
  function ProductStatus(stock: int, demand: int): (s: Status)
    ensures s == Healthy <==> stock > demand
    ensures s == Low <==> stock == demand
    ensures s == Critical <==> stock < demand
  {
    if stock > demand then Healthy
    else if stock == demand then Low
    else Critical
  }

  /** The CSS class of a status pill. The source's `default` branch is
      unreachable for the three-valued type and has no counterpart. */
  function StatusColor(s: Status): (cls: string)
    ensures cls in {"status-healthy", "status-low", "status-critical"}
  {
    match s
    case Healthy => "status-healthy"
    case Low => "status-low"
    case Critical => "status-critical"
  }

  /** No two statuses share a class. */
  lemma StatusColorInjective(s: Status, t: Status)
    ensures StatusColor(s) == StatusColor(t) ==> s == t
  {
  }

  // ----- decimal rendering, as in a template string `${num}` -----

  function DigitChar(d: int): (c: char)
    requires 0 <= d < 10
    ensures '0' <= c <= '9' && c as int - '0' as int == d
  {
    ('0' as int + d) as char
  }

  predicate IsDigits(s: string)
  {
    forall i :: 0 <= i < |s| ==> '0' <= s[i] <= '9'
  }

  /** The decimal digits of `n`, with no leading zero. */
  function NatToString(n: nat): (s: string)
    ensures |s| >= 1 && IsDigits(s)
    ensures s[0] == '0' <==> n == 0
    ensures s[0] == '0' ==> |s| == 1
  {
    if n < 10 then [DigitChar(n)] else NatToString(n / 10) + [DigitChar(n % 10)]
  }

  /** The decimal rendering of an integer, with a leading '-' when
      negative. */
  function IntToString(n: int): (s: string)
    ensures |s| >= 1 && (s[0] == '-' <==> n < 0)
    ensures var digits := if n < 0 then s[1..] else s;
      |digits| >= 1 && IsDigits(digits) && (digits[0] == '0' ==> digits == "0" && n == 0)
  {
    if n < 0 then "-" + NatToString(-n) else NatToString(n)
  }

  /** The value a digit string denotes (the inverse direction). */
  function ParseNat(s: string): nat
    requires IsDigits(s)
  {
    if s == [] then 0 else 10 * ParseNat(s[..|s| - 1]) + (s[|s| - 1] as int - '0' as int)
  }

  function ParseInt(s: string): (n: int)
  {
    if |s| > 0 && s[0] == '-' && IsDigits(s[1..]) then -(ParseNat(s[1..]) as int)
    else if IsDigits(s) then ParseNat(s)
    else 0
  }

  lemma {:induction false} NatToStringRoundTrip(n: nat)
    ensures ParseNat(NatToString(n)) == n
  {
    if n >= 10 {
      NatToStringRoundTrip(n / 10);
      var s := NatToString(n);
      assert s[..|s| - 1] == NatToString(n / 10);
    }
  }

  lemma IntToStringRoundTrip(n: int)
    ensures ParseInt(IntToString(n)) == n
  {
    if n < 0 {
      NatToStringRoundTrip(-n);
      assert IntToString(n)[1..] == NatToString(-n);
    } else {
      NatToStringRoundTrip(n);
    }
  }

  /** `${num}%`. */
  function FormatPercentage(n: int): (s: string)
    ensures |s| >= 2 && s[|s| - 1] == '%'
  {
    IntToString(n) + "%"
  }

  /** Dropping the '%' gives back the number: the rendering loses nothing. */
  lemma FormatPercentageRoundTrip(n: int)
    ensures ParseInt(FormatPercentage(n)[..|FormatPercentage(n)| - 1]) == n
  {
    var s := FormatPercentage(n);
    assert s[..|s| - 1] == IntToString(n);
    IntToStringRoundTrip(n);
  }

  /** The two renderings the tests expect. */
  lemma FormatPercentageExamples()
    ensures FormatPercentage(85) == "85%"
    ensures FormatPercentage(0) == "0%"
  {
    assert NatToString(85) == NatToString(8) + [DigitChar(5)];
  }
}
