/**
 * The stored entities of the API (`api/Models`) and the request shapes the
 * repositories read. Only the fields the core uses are kept.
 */
module Models {
  import opened Wrappers

  /** A C# `int` (32 bits, two's complement). */
  newtype int32 = x: int | -0x8000_0000 <= x < 0x8000_0000

  /** A C# `decimal` column, carried as an uninterpreted value: no arithmetic is done on it. */
  datatype Money = Money(units: int, scale: nat)

  /** A point in time (`DateTime`), carried as an uninterpreted tick count. */
  datatype Timestamp = Timestamp(ticks: int)

  /** A row of the `Comments` table: `StockId` is a nullable foreign key, `AppUserId` a required one. */
  datatype Comment = Comment(
    id: int,
    title: string,
    content: string,
    createdOn: Timestamp,
    stockId: Option<int>,
    appUserId: string)

  /** A row of the `Stocks` table with its `Comments` navigation collection. */
  datatype Stock = Stock(
    id: int,
    symbol: string,
    companyName: string,
    purchase: Money,
    lastDiv: Money,
    industry: string,
    marketCap: Money,
    comments: seq<Comment>)

  /** `UpdateStockRequestDto`: the six fields a stock update overwrites. */
  datatype UpdateStockRequest = UpdateStockRequest(
    symbol: string,
    companyName: string,
    purchase: Money,
    lastDiv: Money,
    industry: string,
    marketCap: Money)

  /** `QueryObject`: the query-string parameters of the stock listing. */
  datatype QueryObject = QueryObject(
    symbol: Option<string>,
    companyName: Option<string>,
    sortBy: Option<string>,
    isDescending: bool,
    pageNumber: int32,
    pageSize: int32)

  /** The primary key of each table, as a key selector for the keyed-table operations. */
  function StockKey(s: Stock): int { s.id }

  function CommentKey(c: Comment): int { c.id }
}
