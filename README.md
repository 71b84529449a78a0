# SupplySight inventory engine, modelled in Dafny

SupplySight is a supply-chain dashboard. The engine behind it has three parts, and this project models all three:

- the aggregate figures the KPI cards show (total stock, total demand, fill rate) and the per-product status with its CSS class and percentage rendering (`src/utils/calculations.ts`);
- the GraphQL resolvers over the in-memory product table. The `products` query filters by search text, warehouse and status. The `updateDemand` and `transferStock` mutations look a product up by id and overwrite it in place (`src/server/resolvers.ts`);
- the seed data and the synthetic KPI series generator (`src/server/mockData.ts`).

Files:

- `wrappers.dfy`: `Option` (an absent GraphQL variable) and `Result` (a return value or a thrown `Error`).
- `types.dfy`: `Product`, `Warehouse`, `KpiSample` and the three-valued `Status`.
- `calculations.dfy`: the folds, the fill rate with exact round-half-up, the status rule, the CSS class map, and `${n}%` with its inverse.
- `resolvers.dfy`: the filter predicates and `FilterProducts`. It also holds the two mutations as pure steps on the table (`ApplyUpdateDemand`, `ApplyTransferStock`). The class `InventoryStore` keeps the table as an `array<Product>` and updates its elements in place. Its `FindIndex` is the `findIndex` loop. Each store method is proved equal to the matching pure step, and the lemmas about the steps carry the properties.
- `mock_data.dfy`: the 12 seed products and 5 warehouses, their invariants, and `generateKPIData` as a method with a count-down loop.
- `fixtures.dfy`: the four-product test fixture and the outcomes the test suites expect. It also has concrete instances of the mutations on the seed table and a client scenario for the store class.

How the source was mapped:

- JavaScript numbers holding quantities are `int`s. No input demand is ever checked, so demand can become negative. Stock starts non-negative in the seed and stays so only through the transfer guard `stock < qty` (`Resolvers.TransferStockKeepsStockNonNegative`).
- `Math.round(p / q)` is modelled exactly as the integer `r` with `r - 1/2 <= p/q < r + 1/2`, ties going up.
- `Math.random()` is replaced by caller-supplied variations. `stockVariation(k)` and `demandVariation(k)` are used for the k-th sample.
- The sample's ISO date is replaced by `daysAgo`, the number of days before the request.
- `toLowerCase` folds ASCII letters only.

Validations the code does not perform:

- `updateDemand` does not reject a negative demand.
- `transferStock` does not reject a zero or negative quantity. A negative quantity adds stock. The only quantity check is `stock < qty`.
- The destination warehouse is never checked against the warehouse list.

`Fixtures.UnvalidatedInputsAccepted` exhibits a negative demand, a negative quantity and an unchecked destination.

## Model

| member | source | states |
|---|---|---|
| `Types.StatusName` | src/types/index.ts:30 | a status is spelled as one of "Healthy", "Low", "Critical" |
| `Types.StatusNameInjective` | src/types/index.ts:30 | distinct statuses have distinct names, so the filter's string comparison is a status comparison |
| `Calculations.Sum` | src/utils/calculations.ts:3-17 | the left fold is non-negative when no amount is negative, and 0 when every amount is 0 |
| `Calculations.TotalStock` | src/utils/calculations.ts:3-5 | 0 for the empty list, and non-negative when every quantity is |
| `Calculations.TotalDemand` | src/utils/calculations.ts:7-9 | 0 for the empty list and whenever every demand is 0, and non-negative when every quantity is |
| `Calculations.FilledDemand` | src/utils/calculations.ts:15-17 | Σmin(stock, demand) is at most total demand and at most total stock, and non-negative when every quantity is |
| `Calculations.SumAppend` | src/utils/calculations.ts:3-9 | the stock and demand folds are additive over concatenation, so each total is the plain sum of its field |
| `Calculations.SumSingleton` | src/utils/calculations.ts:3-9 | a one-product list sums to that product's amount |
| `Calculations.EmptyTotals` | src/utils/__tests__/calculations.test.ts:19-34 | total stock, total demand and filled demand of the empty list are 0 |
| `Calculations.FilledBounds` | src/utils/calculations.ts:15-17 | Σmin(stock, demand) is at most total demand and at most total stock |
| `Calculations.RoundHalfUp` | src/utils/calculations.ts:19 | the result r satisfies r - 1/2 <= p/q < r + 1/2 for either sign of q (Math.round, ties up) |
| `Calculations.FillRate` | src/utils/calculations.ts:11-20 | 100 when total demand is 0; otherwise, for a positive and for a negative total demand alike, the round-half-up of 100·Σmin(stock, demand)/Σdemand |
| `Calculations.ZeroDemandFillRate` | src/utils/calculations.ts:12-13 | every demand 0 gives fill rate exactly 100 |
| `Calculations.FillRateIsPercentage` | src/utils/calculations.ts:11-20 | with non-negative quantities the fill rate lies in [0, 100] |
| `Calculations.RoundedRatioBounds` | src/utils/calculations.ts:19 | a rounded percentage of f/t with 0 <= f <= t lies in [0, 100] |
| `Calculations.MulMonotone` | src/utils/calculations.ts:19 | multiplying by a non-negative factor keeps order (used for the bound on the fill rate) |
| `Calculations.ProductStatus` | src/utils/calculations.ts:22-26 | Healthy iff stock > demand, Low iff stock = demand, Critical iff stock < demand |
| `Calculations.StatusColor` | src/utils/calculations.ts:28-39 | the class is one of the three status classes |
| `Calculations.StatusColorInjective` | src/utils/calculations.ts:28-39 | no two statuses share a CSS class |
| `Calculations.DigitChar` | src/utils/calculations.ts:46 | the character is a decimal digit whose value is d |
| `Calculations.NatToString` | src/utils/calculations.ts:46 | a non-empty digit string; it starts with '0' iff n is 0, and then it is "0" |
| `Calculations.IntToString` | src/utils/calculations.ts:46 | a leading '-' iff n < 0, followed by a non-empty digit string with no leading zero unless n is 0 |
| `Calculations.NatToStringRoundTrip` | src/utils/calculations.ts:46 | parsing the digits of n gives n back |
| `Calculations.IntToStringRoundTrip` | src/utils/calculations.ts:46 | parsing the rendering of an integer, sign included, gives it back |
| `Calculations.FormatPercentage` | src/utils/calculations.ts:45-47 | the text ends in '%' and has at least one character before it |
| `Calculations.FormatPercentageRoundTrip` | src/utils/calculations.ts:45-47 | dropping the '%' and parsing gives the number back |
| `Calculations.FormatPercentageExamples` | src/utils/__tests__/calculations.test.ts:85-90 | 85 renders as "85%" and 0 as "0%" |
| `Resolvers.ProductStatus` | src/server/resolvers.ts:5-9 | the resolvers' copy of the classification rule, equal to `Calculations.ProductStatus` on every input |
| `Resolvers.ProductStatusAgrees` | src/server/resolvers.ts:5-9 | the resolvers' status rule equals the dashboard's for every stock and demand |
| `Resolvers.ToLower` | src/server/resolvers.ts:21-25 | same length, each character ASCII-lowercased |
| `Resolvers.ToLowerIdempotent` | src/server/resolvers.ts:21-25 | lowercasing twice is lowercasing once |
| `Resolvers.Contains` | src/server/resolvers.ts:23-25 | the empty needle is always found, every text contains itself, and a found needle is no longer than the text |
| `Resolvers.ContainsIff` | src/server/resolvers.ts:23-25 | `includes` holds iff the needle occurs at some position of the text |
| `Resolvers.ContainsAt` | src/server/resolvers.ts:23-25 | an occurrence at a known position makes `includes` true |
| `Resolvers.SearchMatches` | src/server/resolvers.ts:20-27 | an absent or empty search accepts everything; otherwise the product is accepted iff the lowercased search occurs in its lowercased name, sku or id |
| `Resolvers.WarehouseMatches` | src/server/resolvers.ts:30-32 | an absent or empty filter accepts everything; otherwise iff the codes are equal, so a code in another letter case is rejected |
| `Resolvers.StatusMatches` | src/server/resolvers.ts:35-38 | absent, empty or "All" accepts everything; "Healthy", "Low", "Critical" accept iff stock >, =, < demand; any other string rejects |
| `Resolvers.Keep` | src/server/resolvers.ts:18-41 | a product is kept iff the search, warehouse and status filters all accept it; with every filter off it is always kept |
| `Resolvers.FilterProducts` | src/server/resolvers.ts:12-42 | no longer than the store; every result passes all three filters and comes from the store; every passing store product is in the result |
| `Resolvers.FilterAppend` | src/server/resolvers.ts:18-41 | filtering commutes with concatenation, so the result keeps store order |
| `Resolvers.FilterSingleton` | src/server/resolvers.ts:18-41 | one product is kept iff search, warehouse and status filters all accept it |
| `Resolvers.FilterWithoutFilters` | src/server/resolvers.ts:20-35 | absent or empty filters, and status "All", give back the whole store in order |
| `Resolvers.CriticalFilter` | src/server/resolvers.ts:35-38 | status "Critical" keeps exactly the products with stock < demand |
| `Resolvers.UnknownStatusKeepsNothing` | src/server/resolvers.ts:35-38 | a status string other than "", "All" and the three names keeps no product |
| `Resolvers.SearchIgnoresCase` | src/server/resolvers.ts:20-27 | a query and its lowercase form select the same products |
| `Resolvers.SearchFindsOwnId` | src/server/resolvers.ts:20-27 | searching for a product's own id, in any letter case, finds it |
| `Resolvers.ErrorMessage` | src/server/resolvers.ts:63-85 | every thrown message contains the product id, and the wrong-warehouse message also the source warehouse |
| `Resolvers.IndexOf` | src/server/resolvers.ts:61 | -1 iff no record has the id; otherwise the first record with it |
| `Resolvers.IndexOfSameIds` | src/server/resolvers.ts:61 | the lookup depends on the ids alone |
| `Resolvers.ApplyUpdateDemand` | src/server/resolvers.ts:60-68 | fails iff the id is unknown, and then the table is unchanged; on success the returned record is the stored one at the first match, with the new demand, and every other record and every id is unchanged |
| `Resolvers.ApplyTransferStock` | src/server/resolvers.ts:70-93 | a failure leaves the table unchanged; a success returns the stored record at the first match, now in `to` with non-negative stock, every other record unchanged; ids stay in place and non-negative stock stays non-negative |
| `Resolvers.UpdateDemandFailsIffUnknown` | src/server/resolvers.ts:61-64 | updateDemand fails iff the id is unknown, and then reports not-found with the table unchanged |
| `Resolvers.UpdateDemandSetsOnlyDemand` | src/server/resolvers.ts:66-67 | on a known id only that record's demand changes, to any value including a negative one, and the updated record is returned |
| `Resolvers.UpdateDemandIdempotent` | src/server/resolvers.ts:60-68 | repeating an update yields the same table and the same reply |
| `Resolvers.TransferStockGuards` | src/server/resolvers.ts:71-86 | not found, then wrong source warehouse, then stock < qty, each iff its condition in that order; any failure leaves the table unchanged |
| `Resolvers.TransferStockMovesRecord` | src/server/resolvers.ts:88-92 | on success stock' = stock - qty and warehouse' = to; id, name, sku, demand and the other records are untouched |
| `Resolvers.TransferStockKeepsStockNonNegative` | src/server/resolvers.ts:84-89 | no transfer makes a stock negative, whatever the sign of qty |
| `Resolvers.MutationsKeepIds` | src/server/resolvers.ts:60-93 | both mutations keep every id in place, so unique ids stay unique |
| `Resolvers.InventoryStore.Seeded` | src/server/mockData.ts:4-26 | the store starts with the seed products and warehouses, with unique ids and non-negative stock |
| `Resolvers.InventoryStore.FindIndex` | src/server/resolvers.ts:61 | the loop returns the first position holding the id, or -1 |
| `Resolvers.InventoryStore.Products` | src/server/resolvers.ts:46-48 | the query returns the filtered table and changes nothing |
| `Resolvers.InventoryStore.UpdateDemand` | src/server/resolvers.ts:60-68 | the array afterwards and the reply are those of `ApplyUpdateDemand` on the array before; the store invariant is kept |
| `Resolvers.InventoryStore.TransferStock` | src/server/resolvers.ts:70-93 | the array afterwards and the reply are those of `ApplyTransferStock` on the array before; the store invariant is kept |
| `MockData.WarehouseCodes` | src/server/mockData.ts:20-26 | exactly the codes of the listed warehouses |
| `MockData.SeedIdsUnique` | src/server/mockData.ts:4-17 | the seed product ids are pairwise distinct |
| `MockData.SeedQuantitiesNonNegative` | src/server/mockData.ts:4-17 | every seed stock and demand is at least 0 |
| `MockData.SeedWarehousesKnown` | src/server/mockData.ts:4-26 | every seed product sits in a seeded warehouse, and warehouse codes are distinct |
| `MockData.DaysFor` | src/server/mockData.ts:30 | 7 iff "7d", 14 iff "14d", 30 iff any other string |
| `MockData.ClampNonNegative` | src/server/mockData.ts:46-47 | the result is at least 0 and at least x, and is x or 0 |
| `MockData.Sample` | src/server/mockData.ts:36-48 | the k-th sample is dated days-1-k days back; each figure is base + variation or 0 when that is negative; with the source's variation ranges it lies in [1100, 1299] and [725, 874] |
| `MockData.KpiSeries` | src/server/mockData.ts:30-49 | one sample per day of the window, the k-th dated |s|-1-k days back and the last dated today |
| `MockData.GenerateKpiData` | src/server/mockData.ts:29-52 | the count-down loop produces exactly `KpiSeries` of its inputs |
| `MockData.KpiSeriesShape` | src/server/mockData.ts:36-49 | one sample per day of the window, oldest first, one day apart, ending today, never negative |
| `MockData.KpiSeriesBounds` | src/server/mockData.ts:33-47 | with variations in [-100, 99] and [-75, 74], stock lies in [1100, 1299] and demand in [725, 874] |
| `Fixtures.MockTotals` | src/test/simple.test.ts:5-18 | the fixture has stock 334, demand 400, filled 274 and fill rate 69 (68.5 rounds up) |
| `Fixtures.SumOfFour` | src/utils/calculations.ts:3-17 | a four-product fold is the sum of the four amounts |
| `Fixtures.MockZeroDemandFillRate` | src/utils/__tests__/calculations.test.ts:46-50 | the fixture with every demand set to 0 has fill rate 100 |
| `Fixtures.StatusExamples` | src/utils/__tests__/calculations.test.ts:53-76 | (100, 50) is Healthy, (80, 80) Low, (30, 100) Critical, with their three classes |
| `Fixtures.MockCriticalQuery` | src/test/mocks.ts:5-38 | the Critical query on the fixture returns P-1002 then P-1004 |
| `Fixtures.MockUpdateDemand` | src/test/mocks.ts:105-118 | setting P-1001's demand to 150 returns the record with only demand changed |
| `Fixtures.MockTransferStock` | src/test/mocks.ts:120-134 | moving 50 of P-1001 from BLR-A to DEL-B returns stock 130 at DEL-B |
| `Fixtures.TransferAllStock` | src/server/resolvers.ts:84-90 | transferring all 24 of P-1004 leaves stock 0 at the destination |
| `Fixtures.TransferGuardOrder` | src/server/resolvers.ts:78-86 | the wrong-warehouse error is reported before the insufficient-stock one |
| `Fixtures.TransferUnknownId` | src/server/resolvers.ts:71-74 | an unknown id is reported as not found and nothing changes |
| `Fixtures.UnvalidatedInputsAccepted` | src/server/resolvers.ts:60-92 | a negative demand, a negative quantity and an unknown destination warehouse are all accepted |

## Left out

- The React components, the chart, the drawer and the pagination slice of the products table are rendering and hook state.
- `src/server/index.ts` is Express, Apollo and CORS plumbing and is not modelled.
- The `warehouses` and `kpis` query resolvers only return `warehousesData` and call `generateKPIData`. Their content is modelled as `MockData.SeedWarehouses` and `MockData.GenerateKpiData`.
- `formatNumber` is not modelled. `toLocaleString` depends on the locale.
- `Calculations.FillRate`: uses exact rational rounding. JavaScript computes `(filled / total) * 100` in binary floating point, which can differ from the exact value at a .5 boundary.
- `Calculations.FormatPercentage`: renders integers only. A fractional or non-finite JavaScript number renders differently.
- Quantities are JavaScript doubles, modelled as unbounded integers. The model does not capture that sums above 2^53 are rounded, nor that `${n}` prints exponent form for |n| ≥ 1e21 (`${1e21}` is "1e+21") where `IntToString` prints every digit. Neither can happen with seed-sized data.
- `Resolvers.ToLower`: folds ASCII A–Z only, not the full Unicode mapping of `toLowerCase`.
- `MockData.GenerateKpiData`: `Math.random()` is replaced by the caller's variation functions, and the ISO date of `new Date()` / `setDate` by a day count. No calendar arithmetic is modelled. "One day apart, ending today" holds of the day offsets only. The source steps the date with `setDate` in local time but prints it with `toISOString` in UTC, so around a daylight-saving change it can emit the same ISO date twice. The model does not capture that.
- `Resolvers.InventoryStore.UpdateDemand` and `Resolvers.InventoryStore.TransferStock`: the source returns the stored object itself, so a later mutation is visible through an earlier reply. The model returns record values and does not capture that aliasing.
- `Calculations.StatusColor`: the `default` branch of the source's `switch` cannot be reached with the three-valued status type and has no counterpart.
- Concurrency is not modelled. Every resolver runs synchronously to completion.
