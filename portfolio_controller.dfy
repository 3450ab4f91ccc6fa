/**
 * `PortfolioController`: adding a stock to, and removing one from, the
 * calling user's portfolio.
 *
 * The `Portfolios` join table is a set of (user id, stock id) pairs — its
 * composite primary key makes each pair occur at most once. A user's
 * portfolio as the controller reads it is the list of stocks of the `Stocks`
 * table whose id is paired with that user. The stock found by symbol, and
 * whether the store's insert succeeded, come from code outside this model and
 * are inputs.
 */
module PortfolioController {
  import opened Wrappers
  import opened Text
  import opened Models
  import opened Sequences

  /** A row of `Portfolios`, keyed by (`AppUserId`, `StockId`). */
  datatype Holding = Holding(appUserId: string, stockId: int)

  /**
   * The HTTP result of an action. `Unhandled` is the 500 answer of an
   * exception that escapes the action.
   */
  datatype Response = Ok | Created | BadRequest(message: string) | ServerError(message: string) | Unhandled

  const StockNotFound := "Stock not found"
  const AddedTwice := "Cannot add stock to portfolio twice"
  const AddFailed := "Failed to add stock to portfolio"
  const NotHeld := "Stock not in your portfolio"

  /** What an action answers and the join table it leaves behind. */
  datatype Outcome = Outcome(response: Response, holdings: set<Holding>)

  /** `GetUserPortfolioAsync(appUser)`: the table's stocks the user holds, in table order. */
  function UserPortfolio(stocks: seq<Stock>, holdings: set<Holding>, userId: string): (r: seq<Stock>)
    ensures forall s :: s in r <==> s in stocks && Holding(userId, s.id) in holdings
  {
    Filter(stocks, (s: Stock) => Holding(userId, s.id) in holdings)
  }

  /** `x.Symbol.ToLower() == symbol.ToLower()`. */
  predicate SameSymbol(s: Stock, symbol: string)
  {
    LowerEquals(s.symbol, symbol)
  }

  /** `userPortfolio.Any(x => x.Symbol.ToLower() == symbol.ToLower())`. */
  predicate AnySameSymbol(held: seq<Stock>, symbol: string)
  {
    exists i :: 0 <= i < |held| && SameSymbol(held[i], symbol)
  }

  /** `userPortfolio.Where(x => x.Symbol.ToLower() == symbol.ToLower())`. */
  function WithSymbol(held: seq<Stock>, symbol: string): seq<Stock>
  {
    Filter(held, (s: Stock) => SameSymbol(s, symbol))
  }

  /** A table row the user holds under `symbol`, ignoring case. */
  predicate HeldWithSymbol(stocks: seq<Stock>, holdings: set<Holding>, userId: string, symbol: string, i: int)
  {
    0 <= i < |stocks| && Holding(userId, stocks[i].id) in holdings && SameSymbol(stocks[i], symbol)
  }

  /**
   * `AddPortfolio(symbol)` for `userId`, given the stock looked up by symbol
   * and whether the store's insert returned a row. Inserting a pair that is
   * already in the table violates the composite key: the store throws
   * whatever `inserted` says.
   */
  function AddStep(stocks: seq<Stock>, holdings: set<Holding>, userId: string, symbol: string,
                   found: Option<Stock>, inserted: bool): Outcome
  {
    if found.None? then Outcome(BadRequest(StockNotFound), holdings)
    else if AnySameSymbol(UserPortfolio(stocks, holdings, userId), symbol) then Outcome(BadRequest(AddedTwice), holdings)
    else if Holding(userId, found.value.id) in holdings then Outcome(Unhandled, holdings)
    else if !inserted then Outcome(ServerError(AddFailed), holdings)
    else Outcome(Created, holdings + {Holding(userId, found.value.id)})
  }

  /** `DeletePortfolio(symbol)` for `userId`. */
  function DeleteStep(stocks: seq<Stock>, holdings: set<Holding>, userId: string, symbol: string): Outcome
  {
    var matching := WithSymbol(UserPortfolio(stocks, holdings, userId), symbol);
    if |matching| == 1 then Outcome(Ok, holdings - {Holding(userId, matching[0].id)})
    else Outcome(BadRequest(NotHeld), holdings)
  }

  /** The stocks the user holds under `symbol`, read straight off the table. */
  lemma HeldWithSymbolFilter(stocks: seq<Stock>, holdings: set<Holding>, userId: string, symbol: string)
    ensures WithSymbol(UserPortfolio(stocks, holdings, userId), symbol)
            == Filter(stocks, (s: Stock) => Holding(userId, s.id) in holdings && SameSymbol(s, symbol))
  {
    FilterTwice(stocks, (s: Stock) => Holding(userId, s.id) in holdings, (s: Stock) => SameSymbol(s, symbol),
                (s: Stock) => Holding(userId, s.id) in holdings && SameSymbol(s, symbol));
  }

  /**
   * The five outcomes of `AddPortfolio`, in the order the controller checks
   * them: unknown stock first, then a held stock with the same symbol, then
   * the insert, which fails on a pair already in the table.
   */
  lemma {:induction false} AddOutcomes(stocks: seq<Stock>, holdings: set<Holding>, userId: string, symbol: string,
                                       found: Option<Stock>, inserted: bool)
    ensures var r := AddStep(stocks, holdings, userId, symbol, found, inserted);
      && (found.None? ==> r == Outcome(BadRequest(StockNotFound), holdings))
      && (found.Some? && (exists i :: HeldWithSymbol(stocks, holdings, userId, symbol, i)) ==>
            r == Outcome(BadRequest(AddedTwice), holdings))
      && (found.Some? && (forall i :: !HeldWithSymbol(stocks, holdings, userId, symbol, i)) ==>
            r == if Holding(userId, found.value.id) in holdings then Outcome(Unhandled, holdings)
                 else if inserted then Outcome(Created, holdings + {Holding(userId, found.value.id)})
                 else Outcome(ServerError(AddFailed), holdings))
  {
    var held := UserPortfolio(stocks, holdings, userId);
    if exists i :: HeldWithSymbol(stocks, holdings, userId, symbol, i) {
      var i :| HeldWithSymbol(stocks, holdings, userId, symbol, i);
      assert stocks[i] in held;
      var k :| 0 <= k < |held| && held[k] == stocks[i];
      assert SameSymbol(held[k], symbol);
    }
    if AnySameSymbol(held, symbol) {
      var k :| 0 <= k < |held| && SameSymbol(held[k], symbol);
      assert held[k] in stocks;
      var i :| 0 <= i < |stocks| && stocks[i] == held[k];
      assert HeldWithSymbol(stocks, holdings, userId, symbol, i);
    }
  }

  /**
   * When the lookup returns a table stock whose symbol matches ignoring case,
   * the duplicate check catches every pair already in the table, so the
   * insert never meets the composite key (`AppUserId`, `StockId`), and a
   * successful add grows the table by exactly one row.
   */
  lemma AddRespectsCompositeKey(stocks: seq<Stock>, holdings: set<Holding>, userId: string, symbol: string,
                                stock: Stock, inserted: bool)
    requires stock in stocks && SameSymbol(stock, symbol)
    ensures AddStep(stocks, holdings, userId, symbol, Some(stock), inserted).response != Unhandled
    ensures var r := AddStep(stocks, holdings, userId, symbol, Some(stock), inserted);
      r.response == Created ==>
        && Holding(userId, stock.id) !in holdings
        && r.holdings == holdings + {Holding(userId, stock.id)}
        && |r.holdings| == |holdings| + 1
  {
    AddOutcomes(stocks, holdings, userId, symbol, Some(stock), inserted);
    if Holding(userId, stock.id) in holdings {
      var i :| 0 <= i < |stocks| && stocks[i] == stock;
      assert HeldWithSymbol(stocks, holdings, userId, symbol, i);
    }
  }

  /**
   * Adding the same symbol twice: the second call is refused as a duplicate
   * and leaves the single entry of the first.
   */
  lemma AddTwice(stocks: seq<Stock>, holdings: set<Holding>, userId: string, symbol: string, stock: Stock)
    requires stock in stocks && SameSymbol(stock, symbol)
    ensures var first := AddStep(stocks, holdings, userId, symbol, Some(stock), true);
            var second := AddStep(stocks, first.holdings, userId, symbol, Some(stock), true);
      && (first.response == Created ==> Holding(userId, stock.id) in first.holdings)
      && second == Outcome(BadRequest(AddedTwice), first.holdings)
  {
    var first := AddStep(stocks, holdings, userId, symbol, Some(stock), true);
    AddOutcomes(stocks, holdings, userId, symbol, Some(stock), true);
    AddOutcomes(stocks, first.holdings, userId, symbol, Some(stock), true);
    var i :| 0 <= i < |stocks| && stocks[i] == stock;
    if exists j :: HeldWithSymbol(stocks, holdings, userId, symbol, j) {
      var j :| HeldWithSymbol(stocks, holdings, userId, symbol, j);
      assert HeldWithSymbol(stocks, first.holdings, userId, symbol, j);
    } else {
      assert HeldWithSymbol(stocks, first.holdings, userId, symbol, i);
    }
  }

  /**
   * `DeletePortfolio` removes an entry, and answers 200, exactly when one
   * held stock has the symbol ignoring case; the entry removed is that
   * stock's. Otherwise it answers 400 and removes nothing.
   */
  lemma {:induction false} DeleteOutcomes(stocks: seq<Stock>, holdings: set<Holding>, userId: string, symbol: string)
    ensures var r := DeleteStep(stocks, holdings, userId, symbol);
      && (r.response == Ok <==> ExactlyOne(stocks, (s: Stock) => Holding(userId, s.id) in holdings && SameSymbol(s, symbol)))
      && (r.response != Ok ==> r == Outcome(BadRequest(NotHeld), holdings))
      && (r.response == Ok ==> exists i ::
            && HeldWithSymbol(stocks, holdings, userId, symbol, i)
            && r.holdings == holdings - {Holding(userId, stocks[i].id)}
            && |r.holdings| == |holdings| - 1)
  {
    var p := (s: Stock) => Holding(userId, s.id) in holdings && SameSymbol(s, symbol);
    HeldWithSymbolFilter(stocks, holdings, userId, symbol);
    FilterSingleton(stocks, p);
    var matching := Filter(stocks, p);
    if |matching| == 1 {
      assert matching[0] in matching;
      var i :| 0 <= i < |stocks| && stocks[i] == matching[0];
      assert HeldWithSymbol(stocks, holdings, userId, symbol, i);
    }
  }

  /**
   * Two held stocks whose symbols differ only in letter case (or any two held
   * matches) make `DeletePortfolio` refuse: the portfolio is left unchanged.
   */
  lemma DeleteRefusesSeveralMatches(stocks: seq<Stock>, holdings: set<Holding>, userId: string, symbol: string,
                                    i: int, j: int)
    requires i != j
    requires HeldWithSymbol(stocks, holdings, userId, symbol, i)
    requires HeldWithSymbol(stocks, holdings, userId, symbol, j)
    ensures DeleteStep(stocks, holdings, userId, symbol) == Outcome(BadRequest(NotHeld), holdings)
  {
    DeleteOutcomes(stocks, holdings, userId, symbol);
    var p := (s: Stock) => Holding(userId, s.id) in holdings && SameSymbol(s, symbol);
    assert p(stocks[i]) && p(stocks[j]);
  }

  /** Both actions change only the caller's entries of the join table. */
  lemma OtherUsersUntouched(stocks: seq<Stock>, holdings: set<Holding>, userId: string, symbol: string,
                            found: Option<Stock>, inserted: bool, h: Holding)
    requires h.appUserId != userId
    ensures h in AddStep(stocks, holdings, userId, symbol, found, inserted).holdings <==> h in holdings
    ensures h in DeleteStep(stocks, holdings, userId, symbol).holdings <==> h in holdings
  {
  }

  /**
   * The answers of both actions depend only on the caller's entries: adding
   * other users' entries to the join table does not change them.
   */
  lemma OnlyCallerEntriesRead(stocks: seq<Stock>, holdings: set<Holding>, others: set<Holding>, userId: string,
                              symbol: string, found: Option<Stock>, inserted: bool)
    requires forall h :: h in others ==> h.appUserId != userId
    ensures AddStep(stocks, holdings + others, userId, symbol, found, inserted).response
            == AddStep(stocks, holdings, userId, symbol, found, inserted).response
    ensures DeleteStep(stocks, holdings + others, userId, symbol).response
            == DeleteStep(stocks, holdings, userId, symbol).response
  {
    var all := holdings + others;
    assert forall s: Stock :: (Holding(userId, s.id) in holdings) == (Holding(userId, s.id) in all);
    FilterSamePredicate(stocks, (s: Stock) => Holding(userId, s.id) in holdings,
                        (s: Stock) => Holding(userId, s.id) in all);
    assert UserPortfolio(stocks, all, userId) == UserPortfolio(stocks, holdings, userId);
  }

  /** The `Portfolios` join table and the two controller actions that change it. */
  class PortfolioStore {
    var holdings: set<Holding>

    constructor ()
      ensures holdings == {}
    {
      holdings := {};
    }

    /** `GetUserPortfolio()`: the stocks the caller holds. */
    function GetUserPortfolio(stocks: seq<Stock>, userId: string): (r: seq<Stock>)
      reads this
      ensures forall s :: s in r <==> s in stocks && Holding(userId, s.id) in holdings
    {
      UserPortfolio(stocks, holdings, userId)
    }

    /**
     * `AddPortfolio(symbol)`: `found` is what `GetBySymbolAsync(symbol)`
     * returned and `inserted` whether `CreateAsync` returned a row.
     */
    method AddPortfolio(stocks: seq<Stock>, userId: string, symbol: string, found: Option<Stock>, inserted: bool)
      returns (response: Response)
      modifies this
      ensures Outcome(response, holdings) == AddStep(stocks, old(holdings), userId, symbol, found, inserted)
    {
      if found.None? {
        return BadRequest(StockNotFound);
      }
      var userPortfolio := GetUserPortfolio(stocks, userId);
      if AnySameSymbol(userPortfolio, symbol) {
        return BadRequest(AddedTwice);
      }
      var entry := Holding(userId, found.value.id);
      if entry in holdings {
        return Unhandled;
      }
      if !inserted {
        return ServerError(AddFailed);
      }
      holdings := holdings + {entry};
      response := Created;
    }

    /** `DeletePortfolio(symbol)`. */
    method DeletePortfolio(stocks: seq<Stock>, userId: string, symbol: string) returns (response: Response)
      modifies this
      ensures Outcome(response, holdings) == DeleteStep(stocks, old(holdings), userId, symbol)
    {
      var userPortfolio := GetUserPortfolio(stocks, userId);
      var filtered := WithSymbol(userPortfolio, symbol);
      if |filtered| == 1 {
        holdings := holdings - {Holding(userId, filtered[0].id)};
      } else {
        return BadRequest(NotHeld);
      }
      response := Ok;
    }
  }
}
