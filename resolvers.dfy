/** The GraphQL resolvers over the in-memory product table
    (src/server/resolvers.ts): the product query with its three filters,
    and the two mutations, which look a product up by id and change it in
    place. */
module Resolvers {
  import opened Wrappers
  import opened Types
  import Calculations
  import MockData

  /** The resolvers' own copy of the classification rule; it classifies
      every stock and demand as the dashboard does. */
  function ProductStatus(stock: int, demand: int): (s: Status)
    ensures s == Healthy <==> stock > demand
    ensures s == Low <==> stock == demand
    ensures s == Critical <==> stock < demand
  {
    if stock > demand then Healthy
    else if stock == demand then Low
    else Critical
  }

  /** The copy agrees with the dashboard's rule on every input. */
  lemma ProductStatusAgrees(stock: int, demand: int)
    ensures ProductStatus(stock, demand) == Calculations.ProductStatus(stock, demand)
  {
  }

  // ----- text matching -----

  /** `toLowerCase`, restricted to ASCII letters. */
  function LowerChar(c: char): char
  {
    if 'A' <= c <= 'Z' then (c as int + 32) as char else c
  }

  function ToLower(s: string): (r: string)
    ensures |r| == |s|
    ensures forall i :: 0 <= i < |s| ==> r[i] == LowerChar(s[i])
  {
    if s == [] then [] else [LowerChar(s[0])] + ToLower(s[1..])
  }

  lemma ToLowerIdempotent(s: string)
    ensures ToLower(ToLower(s)) == ToLower(s)
  {
  }

  /** `hay.includes(needle)`, scanning the start positions in order. The
      empty needle occurs everywhere, every string contains itself, and a
      needle longer than the text never occurs. */
  predicate Contains(hay: string, needle: string): (b: bool)
    ensures |needle| == 0 ==> b
    ensures needle == hay ==> b
    ensures b ==> |needle| <= |hay|
    decreases |hay|
  {
    (|needle| <= |hay| && hay[..|needle|] == needle) || (|hay| > 0 && Contains(hay[1..], needle))
  }

  /** `needle` occurs in `hay` starting at position `i`. */
  predicate OccursAt(hay: string, needle: string, i: int)
  {
    0 <= i && i + |needle| <= |hay| && hay[i..i + |needle|] == needle
  }

  /** `needle` occurs somewhere in `hay`. */
  ghost predicate Occurs(hay: string, needle: string)
  {
    exists i :: OccursAt(hay, needle, i)
  }

  /** `Contains` holds exactly when the needle occurs at some position. */
  lemma {:induction false} ContainsIff(hay: string, needle: string)
    ensures Contains(hay, needle) <==> Occurs(hay, needle)
    decreases |hay|
  {
    if |hay| > 0 {
      ContainsIff(hay[1..], needle);
      if OccursAt(hay, needle, 0) {
      } else if Contains(hay[1..], needle) {
        var j :| OccursAt(hay[1..], needle, j);
        var u, v := hay[j + 1..j + 1 + |needle|], hay[1..][j..j + |needle|];
        assert forall k :: 0 <= k < |needle| ==> u[k] == v[k];
        assert u == v;
        assert OccursAt(hay, needle, j + 1);
      }
      if exists i :: OccursAt(hay, needle, i) {
        var i :| OccursAt(hay, needle, i);
        if i > 0 {
          var tail := hay[1..];
          var x, y := tail[i - 1..i - 1 + |needle|], hay[i..i + |needle|];
          assert forall k :: 0 <= k < |needle| ==> x[k] == y[k];
          assert x == y;
          assert OccursAt(tail, needle, i - 1);
        }
      }
    } else if |needle| == 0 {
      assert OccursAt(hay, needle, 0);
    }
  }

  lemma ContainsAt(hay: string, needle: string, i: int)
    requires OccursAt(hay, needle, i)
    ensures Contains(hay, needle)
  {
    ContainsIff(hay, needle);
  }

  // ----- filterProducts -----

  /** The search filter: off when absent or empty, otherwise the
      lower-cased search text must occur somewhere in the lower-cased
      name, sku or id. */
  predicate SearchMatches(p: Product, search: Option<string>): (b: bool)
    ensures search == None || search == Some("") ==> b
    ensures search.Some? && search.value != "" ==>
      var q := ToLower(search.value);
      (b <==> Occurs(ToLower(p.name), q) || Occurs(ToLower(p.sku), q) || Occurs(ToLower(p.id), q))
  {
    match search
    case None => true
    case Some(s) =>
      if s == "" then true
      else
        var q := ToLower(s);
        ContainsIff(ToLower(p.name), q);
        ContainsIff(ToLower(p.sku), q);
        ContainsIff(ToLower(p.id), q);
        Contains(ToLower(p.name), q) || Contains(ToLower(p.sku), q) || Contains(ToLower(p.id), q)
  }

  /** The warehouse filter: off when absent or empty, otherwise the codes
      must be equal, letter case included. */
  predicate WarehouseMatches(p: Product, warehouse: Option<string>): (b: bool)
    ensures warehouse == None || warehouse == Some("") ==> b
    ensures warehouse.Some? && warehouse.value != "" ==> (b <==> p.warehouse == warehouse.value)
    ensures warehouse == Some(ToLower(p.warehouse)) && ToLower(p.warehouse) != p.warehouse ==> !b
  {
    match warehouse
    case None => true
    case Some(w) => w == "" || p.warehouse == w
  }

  /** The status filter: off when absent, empty or "All"; each status name
      keeps exactly the products the classification rule gives that
      status, and any other string keeps nothing. */
  predicate StatusMatches(p: Product, status: Option<string>): (b: bool)
    ensures status == None || status == Some("") || status == Some("All") ==> b
    ensures status == Some("Healthy") ==> (b <==> p.stock > p.demand)
    ensures status == Some("Low") ==> (b <==> p.stock == p.demand)
    ensures status == Some("Critical") ==> (b <==> p.stock < p.demand)
    ensures status.Some? && status.value !in {"", "All", "Healthy", "Low", "Critical"} ==> !b
  {
    match status
    case None => true
    case Some(s) => s == "" || s == "All" || StatusName(ProductStatus(p.stock, p.demand)) == s
  }

  /** The `products.filter` callback: a product is kept iff all three
      filters accept it, so with every filter off it is always kept. */
  predicate Keep(p: Product, search: Option<string>, status: Option<string>, warehouse: Option<string>): (b: bool)
    ensures ((search == None || search == Some("")) && (warehouse == None || warehouse == Some(""))
             && (status == None || status == Some("") || status == Some("All"))) ==> b
  {
    SearchMatches(p, search) && WarehouseMatches(p, warehouse) && StatusMatches(p, status)
  }

  /** The products that pass all three filters, in store order. */
  function FilterProducts(ps: seq<Product>, search: Option<string>, status: Option<string>,
                          warehouse: Option<string>): (r: seq<Product>)
    ensures |r| <= |ps|
    ensures forall k :: 0 <= k < |r| ==> r[k] in ps && Keep(r[k], search, status, warehouse)
    ensures forall p :: p in ps && Keep(p, search, status, warehouse) ==> p in r
  {
    if ps == [] then []
    else
      var rest := FilterProducts(ps[1..], search, status, warehouse);
      assert forall p :: p in ps[1..] ==> p in ps;
      if Keep(ps[0], search, status, warehouse) then [ps[0]] + rest else rest
  }

  /** Filtering commutes with concatenation: the kept products of the
      first part come first, each part keeping its own order. */
  lemma {:induction false} FilterAppend(a: seq<Product>, b: seq<Product>, search: Option<string>,
                                        status: Option<string>, warehouse: Option<string>)
    ensures FilterProducts(a + b, search, status, warehouse)
         == FilterProducts(a, search, status, warehouse) + FilterProducts(b, search, status, warehouse)
  {
    if a == [] {
      assert a + b == b;
    } else {
      SplitHead(a, b);
      FilterAppend(a[1..], b, search, status, warehouse);
      var head := if Keep(a[0], search, status, warehouse) then [a[0]] else [];
      AppendAssociative(head, FilterProducts(a[1..], search, status, warehouse),
                        FilterProducts(b, search, status, warehouse));
    }
  }

  lemma SplitHead(a: seq<Product>, b: seq<Product>)
    requires a != []
    ensures (a + b)[0] == a[0] && (a + b)[1..] == a[1..] + b
  {
  }

  lemma AppendAssociative(x: seq<Product>, y: seq<Product>, z: seq<Product>)
    ensures x + (y + z) == (x + y) + z
  {
  }

  /** A single product is kept exactly when it passes the filters. */
  lemma FilterSingleton(p: Product, search: Option<string>, status: Option<string>, warehouse: Option<string>)
    ensures FilterProducts([p], search, status, warehouse)
         == if Keep(p, search, status, warehouse) then [p] else []
  {
    assert [p][1..] == [];
  }

  /** Without filters (absent, empty, or status "All") the query returns
      the whole store in its own order. */
  lemma {:induction false} FilterWithoutFilters(ps: seq<Product>, search: Option<string>,
                                                status: Option<string>, warehouse: Option<string>)
    requires search == None || search == Some("")
    requires warehouse == None || warehouse == Some("")
    requires status == None || status == Some("") || status == Some("All")
    ensures FilterProducts(ps, search, status, warehouse) == ps
  {
    if ps != [] {
      FilterWithoutFilters(ps[1..], search, status, warehouse);
      assert [ps[0]] + ps[1..] == ps;
    }
  }

  /** Status "Critical" alone keeps exactly the products short of demand. */
  lemma CriticalFilter(ps: seq<Product>)
    ensures var r := FilterProducts(ps, None, Some("Critical"), None);
      && (forall k :: 0 <= k < |r| ==> r[k].stock < r[k].demand)
      && (forall p :: p in ps && p.stock < p.demand ==> p in r)
  {
  }

  /** A status string that names no status (such as "all") filters out
      every product. */
  lemma UnknownStatusKeepsNothing(ps: seq<Product>, search: Option<string>, status: string,
                                  warehouse: Option<string>)
    requires status !in {"", "All", "Healthy", "Low", "Critical"}
    ensures FilterProducts(ps, search, Some(status), warehouse) == []
  {
  }

  /** Searching is case-insensitive in the query. */
  lemma SearchIgnoresCase(p: Product, s: string)
    ensures SearchMatches(p, Some(s)) == SearchMatches(p, Some(ToLower(s)))
  {
    ToLowerIdempotent(s);
  }

  /** A product is found by searching for its own id, in any letter
      case. */
  lemma SearchFindsOwnId(p: Product, s: string)
    requires ToLower(s) == ToLower(p.id)
    ensures SearchMatches(p, Some(s))
    ensures SearchMatches(p, Some(p.id))
  {
    ContainsAt(ToLower(p.id), ToLower(p.id), 0);
  }

  // ----- the two mutations, as steps on the product table -----

  /** The errors the mutations throw. */
  datatype StoreError =
    | ProductNotFound(id: string)
    | NotInWarehouse(id: string, from: string)
    | InsufficientStock(id: string)

  /** The message of the thrown `Error`: it names the product, and the
      warehouse-mismatch message also names the source warehouse. */
  function ErrorMessage(e: StoreError): (msg: string)
    ensures Contains(msg, e.id)
    ensures e.NotInWarehouse? ==> Contains(msg, e.from)
  {
    match e
    case ProductNotFound(id) =>
      var m := "Product with id " + id + " not found";
      assert m[16..16 + |id|] == id;
      ContainsAt(m, id, 16);
      m
    case NotInWarehouse(id, from) =>
      var m := "Product " + id + " is not in warehouse " + from;
      assert m[8..8 + |id|] == id;
      ContainsAt(m, id, 8);
      assert m[|m| - |from|..|m| - |from| + |from|] == from;
      ContainsAt(m, from, |m| - |from|);
      m
    case InsufficientStock(id) =>
      var m := "Insufficient stock for product " + id;
      assert m[31..31 + |id|] == id;
      ContainsAt(m, id, 31);
      m
  }

  /** `findIndex(p => p.id === id)`: the first position holding `id`, or
      -1 when there is none. */
  function IndexOf(ps: seq<Product>, id: string): (i: int)
    ensures -1 <= i < |ps|
    ensures i == -1 <==> forall k :: 0 <= k < |ps| ==> ps[k].id != id
    ensures i >= 0 ==> ps[i].id == id && forall k :: 0 <= k < i ==> ps[k].id != id
  {
    if ps == [] then -1
    else if ps[0].id == id then 0
    else
      var i := IndexOf(ps[1..], id);
      if i == -1 then -1 else i + 1
  }

  /** Tables with the same ids, position by position. */
  predicate SameIds(ps: seq<Product>, qs: seq<Product>)
  {
    |ps| == |qs| && forall k :: 0 <= k < |ps| ==> ps[k].id == qs[k].id
  }

  /** The lookup depends on the ids alone. */
  lemma IndexOfSameIds(ps: seq<Product>, qs: seq<Product>, id: string)
    requires SameIds(ps, qs)
    ensures IndexOf(ps, id) == IndexOf(qs, id)
  {
  }

  predicate StockNonNegative(ps: seq<Product>)
  {
    forall k :: 0 <= k < |ps| ==> ps[k].stock >= 0
  }

  /** What a mutation leaves behind: the new table and the resolver's
      return value or thrown error. */
  datatype Reply = Reply(store: seq<Product>, result: Result<Product, StoreError>)

  /** `updateDemand(id, demand)`: fails exactly for an unknown id, leaving
      the table as it was; otherwise the first record with `id` gets the
      new demand and is returned. Ids stay in place. */
  function ApplyUpdateDemand(ps: seq<Product>, id: string, demand: int): (r: Reply)
    ensures SameIds(ps, r.store)
    ensures r.result.Failure? <==> IndexOf(ps, id) == -1
    ensures r.result.Failure? ==> r.store == ps
    ensures r.result.Success? ==>
      && r.result.value == r.store[IndexOf(ps, id)]
      && r.result.value.demand == demand
      && (forall j :: 0 <= j < |ps| && j != IndexOf(ps, id) ==> r.store[j] == ps[j])
  {
    var i := IndexOf(ps, id);
    if i == -1 then Reply(ps, Failure(ProductNotFound(id)))
    else
      var p := ps[i].(demand := demand);
      Reply(ps[i := p], Success(p))
  }

  /** `transferStock(id, from, to, qty)`: a failure leaves the table as it
      was; a success returns the moved record, which now sits in `to` with
      a stock that is not negative. Ids stay in place, and stock that was
      not negative stays so. */
  function ApplyTransferStock(ps: seq<Product>, id: string, from: string, to: string, qty: int): (r: Reply)
    ensures SameIds(ps, r.store)
    ensures r.result.Failure? ==> r.store == ps
    ensures r.result.Success? ==>
      && IndexOf(ps, id) >= 0
      && r.result.value == r.store[IndexOf(ps, id)]
      && r.result.value.warehouse == to
      && r.result.value.stock >= 0
      && (forall j :: 0 <= j < |ps| && j != IndexOf(ps, id) ==> r.store[j] == ps[j])
    ensures StockNonNegative(ps) ==> StockNonNegative(r.store)
  {
    var i := IndexOf(ps, id);
    if i == -1 then Reply(ps, Failure(ProductNotFound(id)))
    else if ps[i].warehouse != from then Reply(ps, Failure(NotInWarehouse(id, from)))
    else if ps[i].stock < qty then Reply(ps, Failure(InsufficientStock(id)))
    else
      var p := ps[i].(stock := ps[i].stock - qty, warehouse := to);
      Reply(ps[i := p], Success(p))
  }

  /** An unknown id is reported and nothing changes; a known id always
      succeeds. */
  lemma UpdateDemandFailsIffUnknown(ps: seq<Product>, id: string, demand: int)
    ensures var reply := ApplyUpdateDemand(ps, id, demand);
      && (reply.result.Failure? <==> forall k :: 0 <= k < |ps| ==> ps[k].id != id)
      && (reply.result.Failure? ==> reply == Reply(ps, Failure(ProductNotFound(id))))
  {
  }

  /** On the first record with `id`, only its demand is overwritten; the
      record is returned, and no other record changes. There is no check
      on the sign of `demand`. */
  lemma UpdateDemandSetsOnlyDemand(ps: seq<Product>, id: string, demand: int, k: nat)
    requires k < |ps| && ps[k].id == id
    requires forall j :: 0 <= j < k ==> ps[j].id != id
    ensures var reply := ApplyUpdateDemand(ps, id, demand);
      && reply.result == Success(reply.store[k])
      && |reply.store| == |ps|
      && reply.store[k].demand == demand
      && reply.store[k].id == ps[k].id && reply.store[k].name == ps[k].name
      && reply.store[k].sku == ps[k].sku && reply.store[k].warehouse == ps[k].warehouse
      && reply.store[k].stock == ps[k].stock
      && (forall j :: 0 <= j < |ps| && j != k ==> reply.store[j] == ps[j])
  {
  }

  /** Repeating an update gives the same table and the same reply. */
  lemma UpdateDemandIdempotent(ps: seq<Product>, id: string, demand: int)
    ensures var once := ApplyUpdateDemand(ps, id, demand);
      ApplyUpdateDemand(once.store, id, demand) == once
  {
    var once := ApplyUpdateDemand(ps, id, demand);
    IndexOfSameIds(ps, once.store, id);
  }

  /** The three guards of a transfer, in the order the resolver tests
      them; each failure leaves the table as it was. */
  lemma TransferStockGuards(ps: seq<Product>, id: string, from: string, to: string, qty: int)
    ensures var reply := ApplyTransferStock(ps, id, from, to, qty);
      var i := IndexOf(ps, id);
      && (reply.result.Failure? ==> reply.store == ps)
      && (i == -1 <==> reply.result == Failure(ProductNotFound(id)))
      && (i >= 0 && ps[i].warehouse != from <==> reply.result == Failure(NotInWarehouse(id, from)))
      && ((i >= 0 && ps[i].warehouse == from && ps[i].stock < qty)
            <==> reply.result == Failure(InsufficientStock(id)))
      && (i >= 0 && ps[i].warehouse == from && ps[i].stock >= qty <==> reply.result.Success?)
  {
  }

  /** A successful transfer subtracts `qty` from the stock and moves the
      record to `to`; id, name, sku, demand and all other records are
      untouched. */
  lemma TransferStockMovesRecord(ps: seq<Product>, id: string, from: string, to: string, qty: int, k: nat)
    requires k < |ps| && ps[k].id == id
    requires forall j :: 0 <= j < k ==> ps[j].id != id
    requires ps[k].warehouse == from && ps[k].stock >= qty
    ensures var reply := ApplyTransferStock(ps, id, from, to, qty);
      && reply.result == Success(reply.store[k])
      && |reply.store| == |ps|
      && reply.store[k].stock == ps[k].stock - qty
      && reply.store[k].warehouse == to
      && reply.store[k].id == ps[k].id && reply.store[k].name == ps[k].name
      && reply.store[k].sku == ps[k].sku && reply.store[k].demand == ps[k].demand
      && (forall j :: 0 <= j < |ps| && j != k ==> reply.store[j] == ps[j])
  {
  }

  /** No transfer drives stock negative, whatever `qty` is: a negative
      quantity is not rejected, and adds to the stock instead. */
  lemma TransferStockKeepsStockNonNegative(ps: seq<Product>, id: string, from: string, to: string, qty: int)
    requires StockNonNegative(ps)
    ensures StockNonNegative(ApplyTransferStock(ps, id, from, to, qty).store)
  {
  }

  /** Both mutations keep every id in its place, so unique ids stay
      unique. */
  lemma MutationsKeepIds(ps: seq<Product>, id: string, demand: int, from: string, to: string, qty: int)
    ensures SameIds(ps, ApplyUpdateDemand(ps, id, demand).store)
    ensures SameIds(ps, ApplyTransferStock(ps, id, from, to, qty).store)
    ensures UniqueIds(ps) ==> UniqueIds(ApplyUpdateDemand(ps, id, demand).store)
    ensures UniqueIds(ps) ==> UniqueIds(ApplyTransferStock(ps, id, from, to, qty).store)
  {
  }

  // ----- the store -----

  /** The module-level product table: an array whose records the
      mutations overwrite in place, plus the static warehouse list. */
  class InventoryStore {
    const items: array<Product>
    const warehouses: seq<Warehouse>

    ghost predicate Valid()
      reads items
    {
      UniqueIds(items[..]) && StockNonNegative(items[..])
    }

    /** The store as the server starts it, from the seed data. */
    constructor Seeded()
      ensures items[..] == MockData.SeedProducts && warehouses == MockData.SeedWarehouses
      ensures fresh(items) && Valid()
    {
      var seed := MockData.SeedProducts;
      items := new Product[|seed|](i requires 0 <= i < |seed| => seed[i]);
      warehouses := MockData.SeedWarehouses;
      new;
      assert items[..] == seed;
      MockData.SeedIdsUnique();
    }

    /** `productsData.findIndex(p => p.id === id)`. */
    method FindIndex(id: string) returns (i: int)
      ensures i == IndexOf(items[..], id)
    {
      i := 0;
      while i < items.Length
        invariant 0 <= i <= items.Length
        invariant forall k :: 0 <= k < i ==> items[k].id != id
      {
        if items[i].id == id {
          return;
        }
        i := i + 1;
      }
      i := -1;
    }

    /** `Query.products`: the filtered table; the table is not changed. */
    method Products(search: Option<string>, status: Option<string>, warehouse: Option<string>)
      returns (r: seq<Product>)
      ensures r == FilterProducts(items[..], search, status, warehouse)
    {
      r := FilterProducts(items[..], search, status, warehouse);
    }

    /** `Mutation.updateDemand`. */
    method UpdateDemand(id: string, demand: int) returns (r: Result<Product, StoreError>)
      modifies items
      ensures var reply := ApplyUpdateDemand(old(items[..]), id, demand);
        items[..] == reply.store && r == reply.result
      ensures old(Valid()) ==> Valid()
    {
      var i := FindIndex(id);
      if i == -1 {
        return Failure(ProductNotFound(id));
      }
      items[i] := items[i].(demand := demand);
      r := Success(items[i]);
      MutationsKeepIds(old(items[..]), id, demand, "", "", 0);
    }

    /** `Mutation.transferStock`. */
    method TransferStock(id: string, from: string, to: string, qty: int) returns (r: Result<Product, StoreError>)
      modifies items
      ensures var reply := ApplyTransferStock(old(items[..]), id, from, to, qty);
        items[..] == reply.store && r == reply.result
      ensures old(Valid()) ==> Valid()
    {
      var i := FindIndex(id);
      if i == -1 {
        return Failure(ProductNotFound(id));
      }
      var product := items[i];
      if product.warehouse != from {
        return Failure(NotInWarehouse(id, from));
      }
      if product.stock < qty {
        return Failure(InsufficientStock(id));
      }
      items[i] := product.(stock := product.stock - qty, warehouse := to);
      r := Success(items[i]);
      MutationsKeepIds(old(items[..]), id, 0, from, to, qty);
      if old(Valid()) {
        TransferStockKeepsStockNonNegative(old(items[..]), id, from, to, qty);
      }
    }
  }
}
