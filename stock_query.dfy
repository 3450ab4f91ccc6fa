/**
 * `StockRepository.GetAllAsync`: the stock listing is a pipeline over the
 * rows of the `Stocks` table — symbol filter, company-name filter, an
 * optional single-key sort, then `Skip((PageNumber-1)*PageSize).Take(PageSize)`.
 *
 * `Contains` is ordinal substring containment and `OrderBy` on strings is the
 * ordinal order; the database collation that decides both in production is
 * not modelled.
 */
module StockQuery {
  import opened Wrappers
  import opened Text
  import opened Models
  import opened Sequences

  // ---------------------------------------------------------------- filtering

  /** The symbol filter: absent when `query.Symbol` is null or white space. */
  predicate SymbolSelected(s: Stock, q: QueryObject)
  {
    IsNullOrWhiteSpace(q.symbol) || Contains(s.symbol, q.symbol.value)
  }

  /** The company-name filter, the same way. */
  predicate CompanySelected(s: Stock, q: QueryObject)
  {
    IsNullOrWhiteSpace(q.companyName) || Contains(s.companyName, q.companyName.value)
  }

  /** Both filters together. */
  function Filtered(t: seq<Stock>, q: QueryObject): (r: seq<Stock>)
    ensures forall x :: x in r <==> x in t && SymbolSelected(x, q) && CompanySelected(x, q)
  {
    var bySymbol := Filter(t, (x: Stock) => SymbolSelected(x, q));
    Filter(bySymbol, (x: Stock) => CompanySelected(x, q))
  }

  /** The rows kept by the filters appear in the order they have in the table. */
  lemma FilteredKeepsOrder(t: seq<Stock>, q: QueryObject, i: nat, j: nat)
    requires i < j < |Filtered(t, q)|
    ensures InOrder(t, Filtered(t, q)[i], Filtered(t, q)[j])
  {
    var bySymbol := Filter(t, (x: Stock) => SymbolSelected(x, q));
    FilterKeepsOrder(bySymbol, (x: Stock) => CompanySelected(x, q), i, j);
    var a, b :| 0 <= a < b < |bySymbol| && bySymbol[a] == Filtered(t, q)[i] && bySymbol[b] == Filtered(t, q)[j];
    FilterKeepsOrder(t, (x: Stock) => SymbolSelected(x, q), a, b);
  }

  /** With neither filter given, every row is listed, in table order. */
  lemma NoFilterKeepsAll(t: seq<Stock>, q: QueryObject)
    requires IsNullOrWhiteSpace(q.symbol) && IsNullOrWhiteSpace(q.companyName)
    ensures Filtered(t, q) == t
  {
    FilterAll(t, (x: Stock) => SymbolSelected(x, q));
    FilterAll(t, (x: Stock) => CompanySelected(x, q));
  }

  /** Only the two filter fields of the query decide which rows are selected. */
  lemma FilteredIgnoresPaging(t: seq<Stock>, q: QueryObject, q2: QueryObject)
    requires q.symbol == q2.symbol && q.companyName == q2.companyName
    ensures Filtered(t, q) == Filtered(t, q2)
  {
    var bySymbol := Filter(t, (x: Stock) => SymbolSelected(x, q));
    FilterSamePredicate(t, (x: Stock) => SymbolSelected(x, q), (x: Stock) => SymbolSelected(x, q2));
    FilterSamePredicate(bySymbol, (x: Stock) => CompanySelected(x, q), (x: Stock) => CompanySelected(x, q2));
  }

  // ------------------------------------------------------------------ sorting

  datatype SortField = BySymbol | ByCompanyName

  /** `SortBy` compared with "Symbol" and "CompanyName" ignoring case; anything else means no sort. */
  function SortFieldOf(q: QueryObject): (r: Option<SortField>)
    ensures r == Some(BySymbol) ==> q.sortBy.Some? && EqualsIgnoreCase(q.sortBy.value, "Symbol")
    ensures r == Some(ByCompanyName) ==> q.sortBy.Some? && EqualsIgnoreCase(q.sortBy.value, "CompanyName")
    ensures r.None? <==> IsNullOrWhiteSpace(q.sortBy)
                         || (!EqualsIgnoreCase(q.sortBy.value, "Symbol")
                             && !EqualsIgnoreCase(q.sortBy.value, "CompanyName"))
  {
    if IsNullOrWhiteSpace(q.sortBy) then None
    else if EqualsIgnoreCase(q.sortBy.value, "Symbol") then Some(BySymbol)
    else if EqualsIgnoreCase(q.sortBy.value, "CompanyName") then Some(ByCompanyName)
    else None
  }

  function SortKey(s: Stock, f: SortField): string
  {
    match f
    case BySymbol => s.symbol
    case ByCompanyName => s.companyName
  }

  /** `a` may come before `b` in `OrderBy` (or `OrderByDescending` when `desc`). */
  predicate Precedes(a: Stock, b: Stock, f: SortField, desc: bool)
  {
    if desc then OrdinalLe(SortKey(b, f), SortKey(a, f)) else OrdinalLe(SortKey(a, f), SortKey(b, f))
  }

  ghost predicate SortedBy(s: seq<Stock>, f: SortField, desc: bool)
  {
    forall i, j :: 0 <= i < j < |s| ==> Precedes(s[i], s[j], f, desc)
  }

  lemma PrecedesTotal(a: Stock, b: Stock, f: SortField, desc: bool)
    ensures Precedes(a, b, f, desc) || Precedes(b, a, f, desc)
  {
    OrdinalLeTotal(SortKey(a, f), SortKey(b, f));
  }

  lemma PrecedesTransitive(a: Stock, b: Stock, c: Stock, f: SortField, desc: bool)
    requires Precedes(a, b, f, desc) && Precedes(b, c, f, desc)
    ensures Precedes(a, c, f, desc)
  {
    if desc {
      OrdinalLeTransitive(SortKey(c, f), SortKey(b, f), SortKey(a, f));
    } else {
      OrdinalLeTransitive(SortKey(a, f), SortKey(b, f), SortKey(c, f));
    }
  }

  /** Inserts `x` before the first element it may precede. */
  function Insert(x: Stock, s: seq<Stock>, f: SortField, desc: bool): (r: seq<Stock>)
    ensures multiset(r) == multiset(s) + multiset{x}
    ensures |r| == |s| + 1
    ensures forall y :: y in r <==> y == x || y in s
  {
    if s == [] || Precedes(x, s[0], f, desc) then [x] + s
    else
      assert s == [s[0]] + s[1..];
      [s[0]] + Insert(x, s[1..], f, desc)
  }

  lemma {:induction false} InsertSorted(x: Stock, s: seq<Stock>, f: SortField, desc: bool)
    requires SortedBy(s, f, desc)
    ensures SortedBy(Insert(x, s, f, desc), f, desc)
    decreases |s|
  {
    if s == [] {
    } else if Precedes(x, s[0], f, desc) {
      forall j | 0 < j < |s| ensures Precedes(x, s[j], f, desc) {
        PrecedesTransitive(x, s[0], s[j], f, desc);
      }
    } else {
      PrecedesTotal(x, s[0], f, desc);
      InsertSorted(x, s[1..], f, desc);
      var r := Insert(x, s, f, desc);
      var tail := Insert(x, s[1..], f, desc);
      assert r == [s[0]] + tail;
      forall j | 0 <= j < |tail| ensures Precedes(s[0], tail[j], f, desc) {
        assert tail[j] in multiset(tail);
        if tail[j] != x {
          assert tail[j] in multiset(s[1..]);
          var k :| 0 <= k < |s[1..]| && s[1..][k] == tail[j];
          assert s[k + 1] == tail[j];
        }
      }
    }
  }

  /** `OrderBy`/`OrderByDescending` on the key `f`: an insertion sort. */
  function Sort(s: seq<Stock>, f: SortField, desc: bool): (r: seq<Stock>)
    ensures SortedBy(r, f, desc)
    ensures multiset(r) == multiset(s)
    ensures |r| == |s|
    ensures forall y :: y in r <==> y in s
  {
    if s == [] then []
    else
      var rest := Sort(s[1..], f, desc);
      InsertSorted(s[0], rest, f, desc);
      assert s == [s[0]] + s[1..];
      Insert(s[0], rest, f, desc)
  }

  /** The filtered rows, sorted when `SortBy` names a known key. */
  function Ordered(t: seq<Stock>, q: QueryObject): (r: seq<Stock>)
    ensures multiset(r) == multiset(Filtered(t, q))
    ensures |r| == |Filtered(t, q)|
    ensures forall x :: x in r <==> x in Filtered(t, q)
    ensures SortFieldOf(q).None? ==> r == Filtered(t, q)
    ensures SortFieldOf(q).Some? ==> SortedBy(r, SortFieldOf(q).value, q.isDescending)
  {
    match SortFieldOf(q)
    case None => Filtered(t, q)
    case Some(f) => Sort(Filtered(t, q), f, q.isDescending)
  }

  // --------------------------------------------------------------- pagination

  /** `Skip(skip).Take(take)` for non-negative counts. */
  function Page(s: seq<Stock>, skip: nat, take: nat): (r: seq<Stock>)
    ensures |r| <= take
    ensures skip >= |s| ==> r == []
    ensures skip < |s| ==> |r| == if skip + take <= |s| then take else |s| - skip
    ensures forall k :: 0 <= k < |r| ==> skip + k < |s| && r[k] == s[skip + k]
    ensures forall x :: x in r ==> x in s
  {
    if skip >= |s| then []
    else if skip + take <= |s| then s[skip..skip + take]
    else s[skip..]
  }

  /** The offset of page `PageNumber`, computed without overflow. */
  function Offset(q: QueryObject): (r: nat)
    requires q.pageNumber >= 1 && q.pageSize >= 0
  {
    var pagesBefore: nat := q.pageNumber as int - 1;
    var size: nat := q.pageSize as int;
    pagesBefore * size
  }

  /**
   * `GetAllAsync(query)`. Page numbers start at 1 and page sizes are not
   * negative (the database refuses a negative OFFSET).
   */
  function ListStocks(t: seq<Stock>, q: QueryObject): (r: seq<Stock>)
    requires q.pageNumber >= 1 && q.pageSize >= 0
    ensures |r| <= q.pageSize as int
    ensures forall x :: x in r ==> x in t && SymbolSelected(x, q) && CompanySelected(x, q)
    ensures Offset(q) >= |Filtered(t, q)| ==> r == []
    ensures Offset(q) < |Ordered(t, q)| ==>
              |r| == if Offset(q) + q.pageSize as int <= |Ordered(t, q)| then q.pageSize as int
                     else |Ordered(t, q)| - Offset(q)
    ensures forall k :: 0 <= k < |r| ==>
              Offset(q) + k < |Ordered(t, q)| && r[k] == Ordered(t, q)[Offset(q) + k]
  {
    Page(Ordered(t, q), Offset(q), q.pageSize as nat)
  }

  /**
   * Consecutive pages tile the ordered listing: page `P+1` starts where page
   * `P` ends, so no row is skipped or listed twice.
   */
  lemma {:induction false} PagesAreConsecutive(t: seq<Stock>, q: QueryObject)
    requires q.pageNumber >= 1 && q.pageSize >= 0 && q.pageNumber as int + 1 < 0x8000_0000
    ensures var next := q.(pageNumber := q.pageNumber + 1);
            ListStocks(t, q) + ListStocks(t, next)
            == Page(Ordered(t, q), Offset(q), 2 * q.pageSize as nat)
  {
    var next := q.(pageNumber := q.pageNumber + 1);
    var ordered, o, n := Ordered(t, q), Offset(q), q.pageSize as nat;
    OrderedIgnoresPaging(t, q, next);
    OffsetOfNextPage(q);
    calc {
      ListStocks(t, q) + ListStocks(t, next);
      Page(ordered, o, n) + Page(ordered, o + n, n);
      { PageSplit(ordered, o, n); }
      Page(ordered, o, 2 * n);
    }
  }

  /** The ordered rows depend on the filters and the sort, not on the page asked for. */
  lemma OrderedIgnoresPaging(t: seq<Stock>, q: QueryObject, q2: QueryObject)
    requires q2 == q.(pageNumber := q2.pageNumber, pageSize := q2.pageSize)
    ensures Ordered(t, q2) == Ordered(t, q)
  {
    FilteredIgnoresPaging(t, q, q2);
    assert SortFieldOf(q2) == SortFieldOf(q);
  }

  lemma OffsetOfNextPage(q: QueryObject)
    requires q.pageNumber >= 1 && q.pageSize >= 0 && q.pageNumber as int + 1 < 0x8000_0000
    ensures Offset(q.(pageNumber := q.pageNumber + 1)) == Offset(q) + q.pageSize as int
  {
    var before: nat, size: nat := q.pageNumber as int - 1, q.pageSize as int;
    assert (before + 1) * size == before * size + size;
  }

  /**
   * Two consecutive pages of size `n` make one page of size `2n`, the last
   * partial page and the empty pages beyond it included.
   */
  lemma PageSplit(s: seq<Stock>, skip: nat, n: nat)
    ensures Page(s, skip, n) + Page(s, skip + n, n) == Page(s, skip, 2 * n)
  {
    if skip + n < |s| {
      if skip + 2 * n <= |s| {
        assert s[skip..skip + 2 * n] == s[skip..skip + n] + s[skip + n..skip + 2 * n];
      } else {
        assert s[skip..] == s[skip..skip + n] + s[skip + n..];
      }
    } else if skip < |s| {
      assert Page(s, skip + n, n) == [];
      assert Page(s, skip, n) == s[skip..] == Page(s, skip, 2 * n);
    }
  }

  /**
   * A listing without `SortBy` keeps table order: of two rows of the page,
   * the earlier one comes from an earlier row of the table. With `SortBy`
   * the page is sorted.
   */
  lemma ListOrder(t: seq<Stock>, q: QueryObject, i: nat, j: nat)
    requires q.pageNumber >= 1 && q.pageSize >= 0
    requires i < j < |ListStocks(t, q)|
    ensures SortFieldOf(q).Some? ==>
      Precedes(ListStocks(t, q)[i], ListStocks(t, q)[j], SortFieldOf(q).value, q.isDescending)
    ensures SortFieldOf(q).None? ==>
      InOrder(t, ListStocks(t, q)[i], ListStocks(t, q)[j])
  {
    if SortFieldOf(q).None? {
      FilteredKeepsOrder(t, q, Offset(q) + i, Offset(q) + j);
    }
  }

  // ----------------------------------------------- the offset as C# computes it

  /** C# unchecked `int` arithmetic: the result reduced into the 32-bit range. */
  function Wrap32(x: int): (r: int32)
    ensures -0x8000_0000 <= x < 0x8000_0000 ==> r as int == x
    ensures 0x8000_0000 <= x < 0x1_8000_0000 ==> r as int == x - 0x1_0000_0000
    ensures (x - r as int) % 0x1_0000_0000 == 0
  {
    ((x + 0x8000_0000) % 0x1_0000_0000 - 0x8000_0000) as int32
  }

  /**
   * `GetAllAsync` as written: `skipNumber` is an `int`, so the product wraps
   * around. A negative offset is refused by the database (`None`).
   */
  function ListStocksAsWritten(t: seq<Stock>, q: QueryObject): (r: Option<seq<Stock>>)
    requires q.pageNumber >= 1 && q.pageSize >= 0
    ensures r.Some? ==> |r.value| <= q.pageSize as int
    ensures Offset(q) < 0x8000_0000 ==> r == Some(ListStocks(t, q))
  {
    var skipNumber := Wrap32(Offset(q));
    if skipNumber < 0 then None
    else Some(Page(Ordered(t, q), skipNumber as nat, q.pageSize as nat))
  }

  /**
   * Page 65537 of size 65536 lies beyond any table of fewer than 2^32 rows and
   * should be empty, but the 32-bit offset wraps to 0 and the first page is
   * returned instead.
   */
  lemma WrappedOffsetReturnsFirstPage(t: seq<Stock>, q: QueryObject)
    requires q.pageNumber == 65537 && q.pageSize == 65536
    requires 0 < |Filtered(t, q)| < 0x1_0000_0000
    ensures ListStocks(t, q) == []
    ensures ListStocksAsWritten(t, q) == Some(Page(Ordered(t, q), 0, 65536))
    ensures ListStocksAsWritten(t, q).value != []
  {
    assert Offset(q) == 0x1_0000_0000;
    assert Wrap32(0x1_0000_0000) == 0;
  }
}
