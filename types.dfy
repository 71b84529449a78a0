/** The records exchanged by the inventory engine (src/types/index.ts). */
module Types {

  /** A product row. `stock` and `demand` are JavaScript numbers holding
      whole quantities. No demand is ever checked, and stock stays
      non-negative only through the transfer guard `stock < qty`, so both
      are plain integers here. */
  datatype Product = Product(
    id: string,
    name: string,
    sku: string,
    warehouse: string,
    stock: int,
    demand: int)

  /** Static warehouse reference data. */
  datatype Warehouse = Warehouse(code: string, name: string, city: string, country: string)

  /** One point of the KPI series. The ISO date of the source is represented
      by `daysAgo`, the number of days before the day of the request. */
  datatype KpiSample = KpiSample(daysAgo: nat, stock: int, demand: int)

  /** The three product states; the source spells them as strings. */
  datatype Status = Healthy | Low | Critical

  /** The string the API and the status filter use for a status. */
  function StatusName(s: Status): (name: string)
    ensures name in {"Healthy", "Low", "Critical"}
  {
    match s
    case Healthy => "Healthy"
    case Low => "Low"
    case Critical => "Critical"
  }

  /** Distinct statuses have distinct names, so comparing names is
      comparing statuses. */
  lemma StatusNameInjective(s: Status, t: Status)
    ensures StatusName(s) == StatusName(t) ==> s == t
  {
  }

  /** Every id in `ps` occurs once. */
  predicate UniqueIds(ps: seq<Product>)
  {
    forall i, j :: 0 <= i < j < |ps| ==> ps[i].id != ps[j].id
  }
}
