/**
 * `StockRepository`: the `Stocks` table held in memory as a sequence of rows.
 * Ids are assigned by the table on insertion, from a counter that is always
 * larger than every id in use (the database identity column).
 */
module StockRepository {
  import opened Wrappers
  import opened Models
  import opened KeyedTable
  import opened StockQuery

  class StockRepository {
    var stocks: seq<Stock>
    var nextId: int

    /** Ids are unique and below the next identity value, which starts at 1. */
    ghost predicate Valid()
      reads this
    {
      UniqueKeys(stocks, StockKey)
      && 1 <= nextId
      && forall i :: 0 <= i < |stocks| ==> 1 <= stocks[i].id < nextId
    }

    constructor ()
      ensures Valid() && stocks == [] && nextId == 1
    {
      stocks := [];
      nextId := 1;
    }

    /**
     * `GetAllAsync(query)`: page `PageNumber` of the filtered and ordered
     * stocks (see `StockQuery.ListStocks`).
     */
    function GetAllAsync(q: QueryObject): (r: seq<Stock>)
      reads this
      requires q.pageNumber >= 1 && q.pageSize >= 0
      ensures |r| <= q.pageSize as int
      ensures forall x :: x in r ==> x in stocks && SymbolSelected(x, q) && CompanySelected(x, q)
      ensures Offset(q) < |Ordered(stocks, q)| ==>
                |r| == if Offset(q) + q.pageSize as int <= |Ordered(stocks, q)| then q.pageSize as int
                       else |Ordered(stocks, q)| - Offset(q)
      ensures Offset(q) >= |Ordered(stocks, q)| ==> r == []
      ensures forall k :: 0 <= k < |r| ==>
                Offset(q) + k < |Ordered(stocks, q)| && r[k] == Ordered(stocks, q)[Offset(q) + k]
    {
      ListStocks(stocks, q)
    }

    /** `GetByIdAsync(id)`: the stock whose `Id` is `id`, or null. */
    function GetByIdAsync(id: int): (r: Option<Stock>)
      reads this
      ensures r.Some? ==> r.value in stocks && r.value.id == id
      ensures r.None? <==> forall s :: s in stocks ==> s.id != id
    {
      Find(stocks, StockKey, id)
    }

    /** `ExistsAsync(id)`: some stock has `Id == id`. */
    function ExistsAsync(id: int): (r: bool)
      reads this
      ensures r <==> exists s :: s in stocks && s.id == id
      ensures r <==> GetByIdAsync(id).Some?
    {
      HasKey(stocks, StockKey, id)
    }

    /**
     * `CreateAsync(stock)`: a new stock, whose `Id` is still 0, is appended
     * under the id the identity column assigns and returned.
     */
    method CreateAsync(stock: Stock) returns (created: Stock)
      requires Valid()
      requires stock.id == 0
      modifies this
      ensures Valid()
      ensures created == stock.(id := old(nextId))
      ensures !old(ExistsAsync(created.id))
      ensures stocks == old(stocks) + [created]
      ensures nextId == old(nextId) + 1
      ensures ExistsAsync(created.id) && GetByIdAsync(created.id) == Some(created)
    {
      created := stock.(id := nextId);
      stocks := stocks + [created];
      nextId := nextId + 1;
      FindUnique(stocks, StockKey, created.id, |stocks| - 1);
    }

    /**
     * `UpdateAsync(id, dto)`: null when no stock has `id`; otherwise the six
     * fields of the request overwrite the found stock, whose id and comments
     * stay, and no other stock changes.
     */
    method UpdateAsync(id: int, dto: UpdateStockRequest) returns (r: Option<Stock>)
      requires Valid()
      modifies this
      ensures Valid() && nextId == old(nextId)
      ensures old(GetByIdAsync(id)).None? ==> r.None? && stocks == old(stocks)
      ensures old(GetByIdAsync(id)).Some? ==>
        var before := old(GetByIdAsync(id)).value;
        && r.Some?
        && r.value.id == before.id && r.value.comments == before.comments
        && r.value.symbol == dto.symbol && r.value.companyName == dto.companyName
        && r.value.purchase == dto.purchase && r.value.lastDiv == dto.lastDiv
        && r.value.industry == dto.industry && r.value.marketCap == dto.marketCap
        && GetByIdAsync(id) == r
        && |stocks| == |old(stocks)|
        && forall i :: 0 <= i < |stocks| ==>
             stocks[i] == if old(stocks)[i].id == id then r.value else old(stocks)[i]
    {
      var found := IndexOf(stocks, StockKey, id);
      if found.None? {
        return None;
      }
      var i := found.value;
      var existing := stocks[i];
      existing := existing.(symbol := dto.symbol);
      existing := existing.(companyName := dto.companyName);
      existing := existing.(purchase := dto.purchase);
      existing := existing.(lastDiv := dto.lastDiv);
      existing := existing.(industry := dto.industry);
      existing := existing.(marketCap := dto.marketCap);
      ReplaceKeepsKeys(stocks, StockKey, i, existing);
      stocks := stocks[i := existing];
      FindUnique(stocks, StockKey, id, i);
      r := Some(existing);
    }

    /**
     * `DeleteAsync(id)`: null when no stock has `id`; otherwise exactly that
     * stock is removed and returned, and `ExistsAsync(id)` becomes false.
     */
    method DeleteAsync(id: int) returns (r: Option<Stock>)
      requires Valid()
      modifies this
      ensures Valid() && nextId == old(nextId)
      ensures r == old(GetByIdAsync(id))
      ensures r.None? ==> stocks == old(stocks)
      ensures r.Some? ==>
        && !ExistsAsync(id)
        && |stocks| == |old(stocks)| - 1
        && (forall s :: s in stocks <==> s in old(stocks) && s.id != id)
        && exists i :: 0 <= i < |old(stocks)| && old(stocks)[i] == r.value
                       && stocks == old(stocks)[..i] + old(stocks)[i + 1..]
    {
      var found := IndexOf(stocks, StockKey, id);
      if found.None? {
        return None;
      }
      var i := found.value;
      r := Some(stocks[i]);
      RemoveFound(stocks, StockKey, id, i);
      stocks := RemoveAt(stocks, i);
    }
  }
}
