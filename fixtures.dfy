/** The four-product fixture of src/test/mocks.ts and the outcomes the
    test suites expect of it, together with concrete instances of
    the mutations on the seeded table. */
module Fixtures {
  import opened Wrappers
  import opened Types
  import opened Calculations
  import Resolvers
  import MockData

  const MockProducts: seq<Product> := [
    Product("P-1001", "12mm Hex Bolt", "HEX-12-100", "BLR-A", 180, 120),
    Product("P-1002", "Steel Washer", "WSR-08-500", "BLR-A", 50, 80),
    Product("P-1003", "M8 Nut", "NUT-08-200", "PNQ-C", 80, 80),
    Product("P-1004", "Bearing 608ZZ", "BRG-608-50", "DEL-B", 24, 120)
  ]

  /** 180 + 50 + 80 + 24, 120 + 80 + 80 + 120, and 274 / 400 = 68.5 %,
      which rounds up to 69. */
  lemma MockTotals()
    ensures TotalStock(MockProducts) == 334
    ensures TotalDemand(MockProducts) == 400
    ensures FilledDemand(MockProducts) == 274
    ensures FillRate(MockProducts) == 69
  {
    forall m: Measure
      ensures Sum(MockProducts, m)
           == Amount(MockProducts[0], m) + Amount(MockProducts[1], m)
            + Amount(MockProducts[2], m) + Amount(MockProducts[3], m)
    {
      SumOfFour(MockProducts[0], MockProducts[1], MockProducts[2], MockProducts[3], m);
    }
  }

  lemma SumOfFour(a: Product, b: Product, c: Product, d: Product, m: Measure)
    ensures Sum([a, b, c, d], m) == Amount(a, m) + Amount(b, m) + Amount(c, m) + Amount(d, m)
  {
    assert Sum([a], m) == Amount(a, m) by { assert [a][..0] == []; }
    assert Sum([a, b], m) == Sum([a], m) + Amount(b, m) by { assert [a, b][..1] == [a]; }
    assert Sum([a, b, c], m) == Sum([a, b], m) + Amount(c, m) by { assert [a, b, c][..2] == [a, b]; }
    assert Sum([a, b, c, d], m) == Sum([a, b, c], m) + Amount(d, m) by { assert [a, b, c, d][..3] == [a, b, c]; }
  }

  /** The fixture with every demand set to 0 has fill rate 100. */
  lemma MockZeroDemandFillRate()
    ensures FillRate(seq(|MockProducts|, i requires 0 <= i < |MockProducts| => MockProducts[i].(demand := 0))) == 100
  {
    var zeroed := seq(|MockProducts|, i requires 0 <= i < |MockProducts| => MockProducts[i].(demand := 0));
    ZeroDemandFillRate(zeroed);
  }

  lemma StatusExamples()
    ensures ProductStatus(100, 50) == Healthy
    ensures ProductStatus(80, 80) == Low
    ensures ProductStatus(30, 100) == Critical
    ensures StatusColor(Healthy) == "status-healthy"
    ensures StatusColor(Low) == "status-low"
    ensures StatusColor(Critical) == "status-critical"
  {
  }

  /** The Critical query on the fixture keeps P-1002 and P-1004, in order. */
  lemma MockCriticalQuery()
    ensures Resolvers.FilterProducts(MockProducts, None, Some("Critical"), None) == [MockProducts[1], MockProducts[3]]
  {
    MockCriticalKeeps();
    KeepSecondAndFourth(MockProducts[0], MockProducts[1], MockProducts[2], MockProducts[3], Some("Critical"));
    assert MockProducts == [MockProducts[0], MockProducts[1], MockProducts[2], MockProducts[3]];
  }

  /** Four products of which a status filter accepts the second and the
      fourth give back exactly those two, in order. */
  lemma KeepSecondAndFourth(a: Product, b: Product, c: Product, d: Product, status: Option<string>)
    requires !Resolvers.Keep(a, None, status, None) && Resolvers.Keep(b, None, status, None)
    requires !Resolvers.Keep(c, None, status, None) && Resolvers.Keep(d, None, status, None)
    ensures Resolvers.FilterProducts([a, b, c, d], None, status, None) == [b, d]
  {
    assert [a, b, c, d][1..] == [b, c, d] && [b, c, d][1..] == [c, d] && [c, d][1..] == [d] && [d][1..] == [];
    var fd := Resolvers.FilterProducts([d], None, status, None);
    assert fd == [d] + Resolvers.FilterProducts([], None, status, None);
    var fcd := Resolvers.FilterProducts([c, d], None, status, None);
    assert fcd == fd;
    var fbcd := Resolvers.FilterProducts([b, c, d], None, status, None);
    assert fbcd == [b] + fcd;
    assert Resolvers.FilterProducts([a, b, c, d], None, status, None) == fbcd;
  }

  /** Of the fixture, the Critical filter accepts P-1002 and P-1004 only. */
  lemma MockCriticalKeeps()
    ensures !Resolvers.Keep(MockProducts[0], None, Some("Critical"), None)
    ensures Resolvers.Keep(MockProducts[1], None, Some("Critical"), None)
    ensures !Resolvers.Keep(MockProducts[2], None, Some("Critical"), None)
    ensures Resolvers.Keep(MockProducts[3], None, Some("Critical"), None)
  {
  }

  /** Raising P-1001's demand to 150 returns the record with only its
      demand changed. */
  lemma MockUpdateDemand()
    ensures Resolvers.ApplyUpdateDemand(MockData.SeedProducts, "P-1001", 150).result
         == Success(MockProducts[0].(demand := 150))
  {
    Resolvers.UpdateDemandSetsOnlyDemand(MockData.SeedProducts, "P-1001", 150, 0);
  }

  /** Moving 50 of P-1001 from BLR-A to DEL-B leaves 130 at DEL-B. */
  lemma MockTransferStock()
    ensures Resolvers.ApplyTransferStock(MockData.SeedProducts, "P-1001", "BLR-A", "DEL-B", 50).result
         == Success(MockProducts[0].(stock := 130, warehouse := "DEL-B"))
  {
    Resolvers.TransferStockMovesRecord(MockData.SeedProducts, "P-1001", "BLR-A", "DEL-B", 50, 0);
  }

  /** Transferring the whole stock empties the record. */
  lemma TransferAllStock()
    ensures Resolvers.ApplyTransferStock(MockData.SeedProducts, "P-1004", "DEL-B", "PNQ-C", 24).result
         == Success(MockData.SeedProducts[3].(stock := 0, warehouse := "PNQ-C"))
  {
    Resolvers.TransferStockMovesRecord(MockData.SeedProducts, "P-1004", "DEL-B", "PNQ-C", 24, 3);
  }

  /** The warehouse guard is checked before the stock guard: P-1002 is not
      in DEL-B, and that is reported although 500 also exceeds its stock. */
  lemma TransferGuardOrder()
    ensures Resolvers.ApplyTransferStock(MockData.SeedProducts, "P-1002", "DEL-B", "PNQ-C", 500)
         == Resolvers.Reply(MockData.SeedProducts, Failure(Resolvers.NotInWarehouse("P-1002", "DEL-B")))
    ensures Resolvers.ApplyTransferStock(MockData.SeedProducts, "P-1002", "BLR-A", "PNQ-C", 500)
         == Resolvers.Reply(MockData.SeedProducts, Failure(Resolvers.InsufficientStock("P-1002")))
  {
    assert Resolvers.IndexOf(MockData.SeedProducts, "P-1002") == 1;
  }

  /** An id the table does not hold is reported as not found. */
  lemma TransferUnknownId()
    ensures Resolvers.ApplyTransferStock(MockData.SeedProducts, "P-9999", "BLR-A", "PNQ-C", 1)
         == Resolvers.Reply(MockData.SeedProducts, Failure(Resolvers.ProductNotFound("P-9999")))
  {
    assert forall k :: 0 <= k < |MockData.SeedProducts| ==> MockData.SeedProducts[k].id[3] != '9';
  }

  /** Inputs the resolvers do not validate: a negative demand, a negative
      quantity (which adds stock) and a destination that is no warehouse
      are all accepted. */
  lemma UnvalidatedInputsAccepted()
    ensures Resolvers.ApplyUpdateDemand(MockData.SeedProducts, "P-1001", -5).result
         == Success(MockData.SeedProducts[0].(demand := -5))
    ensures Resolvers.ApplyTransferStock(MockData.SeedProducts, "P-1001", "BLR-A", "DEL-B", -10).result
         == Success(MockData.SeedProducts[0].(stock := 190, warehouse := "DEL-B"))
    ensures var after := Resolvers.ApplyTransferStock(MockData.SeedProducts, "P-1001", "BLR-A", "XYZ-9", 1).store;
      !MockData.WarehousesKnown(after, MockData.SeedWarehouses)
  {
    NegativeDemandAccepted();
    NegativeQuantityAccepted();
    UnknownDestinationAccepted();
  }

  lemma NegativeDemandAccepted()
    ensures Resolvers.ApplyUpdateDemand(MockData.SeedProducts, "P-1001", -5).result
         == Success(MockData.SeedProducts[0].(demand := -5))
  {
    Resolvers.UpdateDemandSetsOnlyDemand(MockData.SeedProducts, "P-1001", -5, 0);
  }

  lemma NegativeQuantityAccepted()
    ensures Resolvers.ApplyTransferStock(MockData.SeedProducts, "P-1001", "BLR-A", "DEL-B", -10).result
         == Success(MockData.SeedProducts[0].(stock := 190, warehouse := "DEL-B"))
  {
    Resolvers.TransferStockMovesRecord(MockData.SeedProducts, "P-1001", "BLR-A", "DEL-B", -10, 0);
  }

  lemma UnknownDestinationAccepted()
    ensures var after := Resolvers.ApplyTransferStock(MockData.SeedProducts, "P-1001", "BLR-A", "XYZ-9", 1).store;
      !MockData.WarehousesKnown(after, MockData.SeedWarehouses)
  {
    Resolvers.TransferStockMovesRecord(MockData.SeedProducts, "P-1001", "BLR-A", "XYZ-9", 1, 0);
    var after := Resolvers.ApplyTransferStock(MockData.SeedProducts, "P-1001", "BLR-A", "XYZ-9", 1).store;
    assert after[0].warehouse == "XYZ-9";
  }

  /** The store's contracts are enough for a client to follow a transfer
      and a demand update on the seeded table. */
  method SeededStoreScenario()
  {
    var store := new Resolvers.InventoryStore.Seeded();
    var r := store.TransferStock("P-1001", "BLR-A", "DEL-B", 50);
    assert r == Success(MockProducts[0].(stock := 130, warehouse := "DEL-B"));
    var again := store.TransferStock("P-1001", "BLR-A", "DEL-B", 50);
    assert again == Failure(Resolvers.NotInWarehouse("P-1001", "BLR-A"));
    var u := store.UpdateDemand("P-1001", 150);
    assert u.Success? && u.value.demand == 150 && u.value.stock == 130;
    assert store.Valid();
  }
}
