/** The server's seed data and its synthetic KPI series
    (src/server/mockData.ts). */
module MockData {
  import opened Types

  /** The products the store holds at start-up, in insertion order. */
  const SeedProducts: seq<Product> := [
    Product("P-1001", "12mm Hex Bolt", "HEX-12-100", "BLR-A", 180, 120),
    Product("P-1002", "Steel Washer", "WSR-08-500", "BLR-A", 50, 80),
    Product("P-1003", "M8 Nut", "NUT-08-200", "PNQ-C", 80, 80),
    Product("P-1004", "Bearing 608ZZ", "BRG-608-50", "DEL-B", 24, 120),
    Product("P-1005", "Aluminum Plate", "ALM-10-200", "BLR-A", 150, 90),
    Product("P-1006", "Copper Wire", "COP-16-100", "DEL-B", 200, 180),
    Product("P-1007", "Rubber Gasket", "RUB-25-50", "PNQ-C", 30, 45),
    Product("P-1008", "Steel Rod", "STE-20-150", "BLR-A", 75, 100),
    Product("P-1009", "Plastic Housing", "PLA-30-80", "DEL-B", 60, 70),
    Product("P-1010", "Ceramic Insulator", "CER-15-120", "PNQ-C", 40, 35),
    Product("P-1011", "Titanium Screw", "TIT-06-300", "BLR-A", 120, 140),
    Product("P-1012", "Carbon Fiber Sheet", "CAR-05-60", "DEL-B", 25, 30)
  ]

  /** The warehouses the query API lists. */
  const SeedWarehouses: seq<Warehouse> := [
    Warehouse("BLR-A", "Bangalore Central", "Bangalore", "India"),
    Warehouse("DEL-B", "Delhi North", "Delhi", "India"),
    Warehouse("PNQ-C", "Pune West", "Pune", "India"),
    Warehouse("MUM-D", "Mumbai South", "Mumbai", "India"),
    Warehouse("CHN-E", "Chennai East", "Chennai", "India")
  ]

  function WarehouseCodes(ws: seq<Warehouse>): (codes: set<string>)
    ensures forall i :: 0 <= i < |ws| ==> ws[i].code in codes
    ensures forall c :: c in codes ==> exists i :: 0 <= i < |ws| && ws[i].code == c
  {
    set i | 0 <= i < |ws| :: ws[i].code
  }

  /** Every product sits in a warehouse that `ws` lists. */
  predicate WarehousesKnown(ps: seq<Product>, ws: seq<Warehouse>)
  {
    forall i :: 0 <= i < |ps| ==> ps[i].warehouse in WarehouseCodes(ws)
  }

  lemma SeedIdsUnique()
    ensures UniqueIds(SeedProducts)
  {
  }

  lemma SeedQuantitiesNonNegative()
    ensures forall i :: 0 <= i < |SeedProducts| ==>
      SeedProducts[i].stock >= 0 && SeedProducts[i].demand >= 0
  {
  }

  lemma SeedWarehousesKnown()
    ensures WarehousesKnown(SeedProducts, SeedWarehouses)
    ensures forall i, j :: 0 <= i < j < |SeedWarehouses| ==> SeedWarehouses[i].code != SeedWarehouses[j].code
  {
    var codes := WarehouseCodes(SeedWarehouses);
    assert "BLR-A" in codes && "DEL-B" in codes && "PNQ-C" in codes by {
      assert SeedWarehouses[0].code == "BLR-A";
      assert SeedWarehouses[1].code == "DEL-B";
      assert SeedWarehouses[2].code == "PNQ-C";
    }
  }

  // ----- the KPI series -----

  const BaseStock := 1200
  const BaseDemand := 800

  /** The window length a range string selects; anything but "7d" and
      "14d", "30d" included, selects 30 days. */
  function DaysFor(range: string): (days: nat)
    ensures days == 7 <==> range == "7d"
    ensures days == 14 <==> range == "14d"
    ensures days == 30 <==> range != "7d" && range != "14d"
  {
    if range == "7d" then 7 else if range == "14d" then 14 else 30
  }

  /** `Math.max(0, x)`. */
  function ClampNonNegative(x: int): (r: int)
    ensures r >= 0 && r >= x
    ensures r == x || r == 0
  {
    if x < 0 then 0 else x
  }

  /** Sample number `k` of a `days`-long series. The k-th of the source's
      random variations is `stockVariation(k)` and `demandVariation(k)`.
      The sample is dated `days - 1 - k` days back; each figure is its base
      plus the variation, or 0 where that sum would be negative, and with
      the source's variation ranges it lies in a fixed band. */
  function Sample(days: nat, k: nat, stockVariation: nat -> int, demandVariation: nat -> int): (s: KpiSample)
    requires k < days
    ensures s.daysAgo < days && s.daysAgo + k + 1 == days
    ensures s.stock >= 0 && s.stock >= BaseStock + stockVariation(k)
    ensures s.stock == BaseStock + stockVariation(k) || s.stock == 0
    ensures s.demand >= 0 && s.demand >= BaseDemand + demandVariation(k)
    ensures s.demand == BaseDemand + demandVariation(k) || s.demand == 0
    ensures -100 <= stockVariation(k) <= 99 ==> 1100 <= s.stock <= 1299
    ensures -75 <= demandVariation(k) <= 74 ==> 725 <= s.demand <= 874
  {
    KpiSample(days - 1 - k,
              ClampNonNegative(BaseStock + stockVariation(k)),
              ClampNonNegative(BaseDemand + demandVariation(k)))
  }

  /** The series a request for `range` produces, given the variations:
      one sample per day of the window, oldest first, the last one dated
      today. */
  function KpiSeries(range: string, stockVariation: nat -> int, demandVariation: nat -> int): (s: seq<KpiSample>)
    ensures |s| == DaysFor(range)
    ensures forall k :: 0 <= k < |s| ==> s[k].daysAgo == |s| - 1 - k
    ensures s[|s| - 1].daysAgo == 0
  {
    var days := DaysFor(range);
    seq(days, k requires 0 <= k < days => Sample(days, k, stockVariation, demandVariation))
  }

  /** `generateKPIData`: counts `i` down from days - 1 to 0 and appends
      the sample for the day `i` days ago. */
  method GenerateKpiData(range: string, stockVariation: nat -> int, demandVariation: nat -> int)
    returns (kpis: seq<KpiSample>)
    ensures kpis == KpiSeries(range, stockVariation, demandVariation)
  {
    var days := DaysFor(range);
    kpis := [];
    var i: int := days - 1;
    while i >= 0
      invariant -1 <= i < days
      invariant |kpis| == days - 1 - i
      invariant forall k :: 0 <= k < |kpis| ==>
        kpis[k] == Sample(days, k, stockVariation, demandVariation)
    {
      var k := |kpis|;
      var stock := ClampNonNegative(BaseStock + stockVariation(k));
      var demand := ClampNonNegative(BaseDemand + demandVariation(k));
      kpis := kpis + [KpiSample(i, stock, demand)];
      i := i - 1;
    }
  }

  /** The series has one sample per day of the window, oldest first, one
      day apart, ending today, and never a negative figure. */
  lemma KpiSeriesShape(range: string, stockVariation: nat -> int, demandVariation: nat -> int)
    ensures var s := KpiSeries(range, stockVariation, demandVariation);
      && |s| == DaysFor(range)
      && (forall k :: 0 <= k < |s| ==> s[k].daysAgo == |s| - 1 - k)
      && (forall k :: 0 < k < |s| ==> s[k].daysAgo + 1 == s[k - 1].daysAgo)
      && s[|s| - 1].daysAgo == 0
      && (forall k :: 0 <= k < |s| ==> s[k].stock >= 0 && s[k].demand >= 0)
  {
  }

  /** With the source's variation ranges, floor(random·200) - 100 and
      floor(random·150) - 75, every sample lies in a fixed band. */
  lemma KpiSeriesBounds(range: string, stockVariation: nat -> int, demandVariation: nat -> int)
    requires forall k: nat :: -100 <= stockVariation(k) <= 99
    requires forall k: nat :: -75 <= demandVariation(k) <= 74
    ensures var s := KpiSeries(range, stockVariation, demandVariation);
      forall k :: 0 <= k < |s| ==> 1100 <= s[k].stock <= 1299 && 725 <= s[k].demand <= 874
  {
  }
}
