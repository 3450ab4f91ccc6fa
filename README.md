# FinShark core, modelled in Dafny

FinShark is a stock-tracking web application: an ASP.NET Core API over a
relational database (stocks, comments, user portfolios, accounts) and a React
frontend. This project models the parts of it whose behaviour can be stated
exactly once the database is replaced by in-memory tables:

- **Stock listing and stock table** (`stock_query.dfy`, `stock_repository.dfy`):
  `GetAllAsync` as a filter → optional sort → skip/take pipeline, and the
  keyed-table operations `GetByIdAsync`, `CreateAsync`, `UpdateAsync`,
  `DeleteAsync`, `ExistsAsync` on a class that holds the table as a sequence
  of rows, with ids assigned from an identity counter.
- **Comment table** (`comment_repository.dfy`): the same keyed-table shape;
  an update copies only `Title` and `Content`.
- **Portfolio rule** (`portfolio_controller.dfy`): `AddPortfolio` and
  `DeletePortfolio` over the `Portfolios` join table, a set of
  (user id, stock id) pairs.
- **Credential validation** (`register_dto.dfy`, `login_dto.dfy`): the
  `[Required]`, `[MinLength]` and `[RegularExpression]` attributes, the
  registration password pattern as a character-class predicate, and its
  relation to the login rule and to the Identity password policy.
- **Client session** (`auth_context.dfy`, `auth_json.dfy`): the frontend
  `AuthProvider` state (`user`, `token`, `isLoading`) and the two
  `localStorage` keys it writes, including the JSON text of the stored user.

Shared pieces: `wrappers.dfy` (`Option`, standing for `null`), `text.dfy`
(white space, ASCII case mapping, substring search, ordinal string order),
`models.dfy` (the entities), `keyed_table.dfy` (lookup, removal and
overwrite by primary key), `sequences.dfy` (`Where`).

Each stateful operation is a method on a class. Its `ensures` ties the new
state to the old one, either directly or through a pure step function
(`AddStep`, `DeleteStep`, `SignIn`, `SignOut`). The lemmas beside it prove
what the source promises about that function.

## Model

| member | source | states |
|---|---|---|
| Text.Contains | api/Repository/StockRepository.cs:30 | `hay.Contains(needle)` holds iff `needle` occurs in `hay` at some start index |
| Sequences.FilterKeepsOrder | api/Repository/StockRepository.cs:30 | `Where` keeps its input's order: of two result elements, the earlier comes from an earlier input position |
| Sequences.FilterAppend | api/Repository/StockRepository.cs:30 | `Where` over a concatenation is the concatenation of the two filtered parts |
| Sequences.FilterSubMultiset | api/Repository/StockRepository.cs:30 | `Where` never adds or repeats an element: its result is a sub-multiset of the input |
| StockQuery.Filtered | api/Repository/StockRepository.cs:28-35 | a row is kept iff it passes the symbol filter and the company-name filter; a filter whose argument is null or white space keeps every row |
| StockQuery.FilteredKeepsOrder | api/Repository/StockRepository.cs:28-35 | the rows kept by both filters appear in the order they have in the table |
| StockQuery.NoFilterKeepsAll | api/Repository/StockRepository.cs:28-35 | with both filter arguments null or white space, the listing starts from the whole table in table order |
| StockQuery.FilteredIgnoresPaging | api/Repository/StockRepository.cs:28-35 | only `Symbol` and `CompanyName` decide which rows are selected |
| StockQuery.SortFieldOf | api/Repository/StockRepository.cs:37-47 | `SortBy` selects the symbol key iff it equals "Symbol" ignoring case, the company-name key iff it equals "CompanyName" ignoring case, and no sort when blank or anything else |
| StockQuery.Sort | api/Repository/StockRepository.cs:41-45 | `OrderBy`/`OrderByDescending` on a key yields a permutation of its input, ordered ascending, or descending when `IsDescending` |
| StockQuery.InsertSorted | api/Repository/StockRepository.cs:41-45 | inserting one row into an ordered sequence keeps it ordered |
| StockQuery.Ordered | api/Repository/StockRepository.cs:37-47 | the filtered rows are sorted by the selected key, or left in filtered order when no key is selected; always a permutation of the filtered rows |
| StockQuery.Page | api/Repository/StockRepository.cs:51 | `Skip(n).Take(m)` has at most `m` rows, is empty when `n` is at or beyond the length, and its row `k` is input row `n + k` |
| StockQuery.ListStocks | api/Repository/StockRepository.cs:24-52 | with `o = (PageNumber-1)*PageSize`, the listing is empty when `o` reaches the filtered count, and otherwise has exactly `min(PageSize, count - o)` rows; its row `k` is row `o + k` of the ordered rows, each a table row passing both filters |
| StockRepository.StockRepository.GetAllAsync | api/Repository/StockRepository.cs:24-52 | the same page over the stored stocks: its length, that row `k` is ordered row `o + k`, and that every row is a stored stock passing both filters |
| StockQuery.PagesAreConsecutive | api/Repository/StockRepository.cs:49-51 | for every page `P`, the last partial page and the empty pages beyond it included, page `P` followed by page `P+1` is the slice of size `2*PageSize` at page `P`'s offset: pages neither skip nor repeat rows |
| StockQuery.ListOrder | api/Repository/StockRepository.cs:26-51 | within a page, rows follow the sort key when one is selected; otherwise of two rows of the page the earlier one comes from an earlier row of the table |
| StockQuery.Wrap32 | api/Repository/StockRepository.cs:49 | C# unchecked `int` arithmetic: the result is the `int` congruent to the value modulo 2^32, so in-range values are kept and values in the next 2^32 window lose 2^32 |
| StockQuery.ListStocksAsWritten | api/Repository/StockRepository.cs:49-51 | with the offset computed as a 32-bit `int`, the listing equals the intended one whenever the true offset fits in an `int` |
| StockQuery.WrappedOffsetReturnsFirstPage | api/Repository/StockRepository.cs:49-51 | page 65537 of size 65536 should be empty but the wrapped offset 0 returns the first page |
| KeyedTable.IndexOf | api/Repository/StockRepository.cs:68 | `FirstOrDefault(x => x.Id == id)` finds the first row with that key, and finds nothing iff no row has it |
| KeyedTable.Find | api/Repository/StockRepository.cs:56 | the row found is a table row with the requested key; null iff no row has it |
| KeyedTable.FindUnique | api/Repository/StockRepository.cs:54-57 | under the primary-key constraint, the row found for a key is the one row that has it |
| KeyedTable.RemoveFound | api/Repository/StockRepository.cs:87-98 | removing the found row leaves no row with that key, keeps every other row and keeps keys unique |
| KeyedTable.ReplaceKeepsKeys | api/Repository/StockRepository.cs:75-80 | overwriting a row in place without changing its key keeps keys unique and changes no other row |
| StockRepository.StockRepository.GetByIdAsync | api/Repository/StockRepository.cs:54-57 | returns a stored stock whose `Id` is `id`, and null iff none has it |
| StockRepository.StockRepository.ExistsAsync | api/Repository/StockRepository.cs:101-104 | true iff some stored stock has that `Id`, i.e. iff `GetByIdAsync` finds it |
| StockRepository.StockRepository.CreateAsync | api/Repository/StockRepository.cs:59-64 | for a new stock (`Id` still 0), appends it under the next identity value, an id no stored stock has; afterwards it exists and `GetByIdAsync` returns exactly it |
| StockRepository.StockRepository.UpdateAsync | api/Repository/StockRepository.cs:66-85 | null and no change when `id` is absent; otherwise overwrites exactly the six request fields, keeps `Id` and `Comments`, and leaves every other stock unchanged |
| StockRepository.StockRepository.DeleteAsync | api/Repository/StockRepository.cs:87-99 | null and no change when `id` is absent; otherwise returns the stock and removes exactly it, the other stocks keeping their order, after which `ExistsAsync(id)` is false |
| CommentRepository.CommentRepository.GetAllAsync | api/Repository/CommentRepository.cs:23-26 | every stored comment, in table order |
| CommentRepository.CommentRepository.GetByIdAsync | api/Repository/CommentRepository.cs:28-32 | returns a stored comment whose `Id` is `id`, and null iff none has it |
| CommentRepository.CommentRepository.CreateAsync | api/Repository/CommentRepository.cs:34-39 | for a new comment (`Id` still 0), appends it under the next identity value and returns it; the table grows by exactly one |
| CommentRepository.CommentRepository.UpdateAsync | api/Repository/CommentRepository.cs:41-56 | null and no change when absent; otherwise copies only `Title` and `Content`, keeping `Id`, `StockId`, `AppUserId`, `CreatedOn` and every other comment |
| CommentRepository.CommentRepository.DeleteAsync | api/Repository/CommentRepository.cs:58-71 | null and no change when absent; otherwise returns the comment and removes exactly it, the other comments keeping their order |
| PortfolioController.UserPortfolio | api/Controllers/PortfolioController.cs:36-38 | a stock is in the user's portfolio iff it is a table stock paired with the user |
| PortfolioController.HeldWithSymbolFilter | api/Controllers/PortfolioController.cs:86-88 | the held stocks with the symbol, ignoring case, are the table stocks that are both held and matching |
| PortfolioController.AddOutcomes | api/Controllers/PortfolioController.cs:42-77 | no stock found gives 400 "Stock not found" whatever is held; else a held stock with the symbol, ignoring case, gives 400 "Cannot add stock to portfolio twice"; else an insert of a pair already in the table breaks the composite key and the exception escapes as an unhandled 500; else a failed insert gives 500 "Failed to add stock to portfolio"; else 201 and exactly the pair (user, stock) is added; every refusal leaves the table unchanged |
| PortfolioController.AddRespectsCompositeKey | api/Data/ApplicationDBContext.cs:28-30 | when the lookup returns a table stock with the symbol, the duplicate check catches every pair already held, so the insert never meets the (AppUserId, StockId) key, and a 201 adds an absent pair, growing the table by one |
| PortfolioController.AddTwice | api/Controllers/PortfolioController.cs:55-60 | adding the same symbol a second time is refused as a duplicate and leaves the table as the first add left it |
| PortfolioController.DeleteOutcomes | api/Controllers/PortfolioController.cs:79-99 | 200 iff exactly one table stock is held with the symbol, ignoring case, and then exactly that stock's pair is removed; otherwise 400 "Stock not in your portfolio" and no change |
| PortfolioController.DeleteRefusesSeveralMatches | api/Controllers/PortfolioController.cs:88-96 | two held stocks matching the symbol, for instance differing only in letter case, make the delete refuse with no change |
| PortfolioController.OtherUsersUntouched | api/Controllers/PortfolioController.cs:62-68 | neither action adds or removes another user's pair |
| PortfolioController.OnlyCallerEntriesRead | api/Controllers/PortfolioController.cs:83-88 | other users' pairs do not influence either action's answer |
| PortfolioController.PortfolioStore.GetUserPortfolio | api/Controllers/PortfolioController.cs:32-40 | a stock is returned iff it is a table stock paired with the caller |
| PortfolioController.PortfolioStore.AddPortfolio | api/Controllers/PortfolioController.cs:42-77 | the answer and new join table are those of `AddStep` on the old table |
| PortfolioController.PortfolioStore.DeletePortfolio | api/Controllers/PortfolioController.cs:79-99 | the answer and new join table are those of `DeleteStep` on the old table |
| RegisterDto.PatternIsStrongPassword | api/Dtos/Account/RegisterDto.cs:18 | the whole-value match of the pattern (lookaheads where `.` excludes newline) holds iff: at least 12 characters, all in `[A-Za-z0-9@$!%*?&]`, with a lower-case letter, an upper-case letter, a digit and one of `@$!%*?&` |
| RegisterDto.RegisterErrors | api/Dtos/Account/RegisterDto.cs:12-19 | `Username` fails iff missing or blank; `Email` fails iff missing, blank or rejected by the e-mail check; `Password` fails iff missing, blank, or non-empty and not matching the pattern |
| RegisterDto.RegisterAccepted | api/Dtos/Account/RegisterDto.cs:12-19 | a registration has no errors iff username and e-mail are present, the e-mail passes the e-mail check and the password is strong |
| RegisterDto.ForeignCharacterRejected | api/Dtos/Account/RegisterDto.cs:18 | one character outside the allowed alphabet rejects the password whatever else it has |
| RegisterDto.ElevenRejected | api/Dtos/Account/RegisterDto.cs:18 | 11 or fewer characters are always rejected |
| RegisterDto.TwelveAccepted | api/Dtos/Account/RegisterDto.cs:18 | a 12-character password covering the four classes is accepted |
| RegisterDto.AppendAllowedKeepsStrong | api/Dtos/Account/RegisterDto.cs:18 | appending an allowed character to an accepted password keeps it accepted |
| RegisterDto.RemoveSoleClassMemberRejected | api/Dtos/Account/RegisterDto.cs:18 | removing the only character of a required class makes the password rejected |
| RegisterDto.StrongMeetsIdentityPolicy | api/Program.cs:56-60 | every accepted password has at least 12 characters, a digit, a lower-case and an upper-case letter and a non-alphanumeric character |
| RegisterDto.IdentityPolicyIsWeaker | api/Program.cs:56-60 | the Identity policy accepts a password with `#` that the registration pattern rejects |
| LoginDto.LoginErrors | api/Dtos/Account/LoginDto.cs:12-16 | `Username` and `Password` are each reported missing iff null or blank; a non-null password under 12 characters is reported with "Password must be at least 12 characters long"; no errors iff both present and the password has 12 or more characters |
| LoginDto.AnyLongPasswordPasses | api/Dtos/Account/LoginDto.cs:14-16 | any non-blank password of 12 or more characters passes: there is no character-class rule |
| LoginDto.OmittedPasswordFails | api/Dtos/Account/LoginDto.cs:16 | the default empty password fails as missing and as too short |
| LoginDto.RegisterStrongerThanLogin | api/Dtos/Account/LoginDto.cs:12-16 | every request the registration rules accept passes the login rules with the same username and password |
| AuthJson.ParseEscaped | frontend/src/Context/AuthContext.tsx:53 | a string literal as `JSON.stringify` writes it parses back to the same string and the text after it |
| AuthJson.SurrogatePairRead | frontend/src/Context/AuthContext.tsx:36 | for every high half and low half, in hex digits of either case, `\uHIGH\uLOW` reads as the one character the pair encodes, followed by whatever the rest of the literal reads as |
| AuthJson.SurrogatesCoverSupplementary | frontend/src/Context/AuthContext.tsx:36 | every character beyond U+FFFF is the character of one high/low surrogate pair, so those pairs reach every such character |
| AuthJson.LoneSurrogateRefused | frontend/src/Context/AuthContext.tsx:36 | every `\u` escape of a surrogate half is refused unless it is a high half followed at once by a `\u` escape of a low half, where `JSON.parse` would yield a lone code unit (see `AuthJson.Parse` under "Left out") |
| AuthJson.ParseStringify | frontend/src/Context/AuthContext.tsx:53 | `JSON.parse(JSON.stringify(user))` is the same user |
| AuthContext.GetStoredUser | frontend/src/Context/AuthContext.tsx:31-40 | null when `auth_user` is missing or empty; a user is returned only when the stored text parses to it; a stored `JSON.stringify(u)` yields `u` |
| AuthContext.SignInOutcome | frontend/src/Context/AuthContext.tsx:47-71 | after a sign-in `isLoading` is false; on failure nothing else changes; on success `user` is the response, `token` its token, the stored token equals the state token, the stored user reads back as the response, `isAuthenticated` iff the token is non-empty, and no other key changes |
| AuthContext.TransitionsKeepMirror | frontend/src/Context/AuthContext.tsx:43-78 | the initial state agrees with storage, and sign-in and logout keep state and storage in agreement |
| AuthContext.ReloadAfterSignIn | frontend/src/Context/AuthContext.tsx:43-58 | a provider started from the storage a sign-in wrote has the same user and token |
| AuthContext.SignOutOutcome | frontend/src/Context/AuthContext.tsx:73-78 | logout clears user, token and both keys, is not authenticated, and a second logout changes nothing |
| AuthContext.AuthProvider.constructor | frontend/src/Context/AuthContext.tsx:43-45 | the initial user is the stored user, the initial token the stored `auth_token`, not loading |
| AuthContext.AuthProvider.IsAuthenticated | frontend/src/Context/AuthContext.tsx:84 | true iff the token is present and non-empty |
| AuthContext.AuthProvider.Login | frontend/src/Context/AuthContext.tsx:47-58 | the new state is `SignIn` of the old one; the promise rejects iff the API call threw |
| AuthContext.AuthProvider.Register | frontend/src/Context/AuthContext.tsx:60-71 | exactly the same effect as `Login` |
| AuthContext.AuthProvider.Logout | frontend/src/Context/AuthContext.tsx:73-78 | the new state is `SignOut` of the old one |

## Findings

| source | as written | input that shows it | evidently intended | confidence | as-written member | corrected member |
|---|---|---|---|---|---|---|
| api/Repository/StockRepository.cs:49 | `(query.PageNumber - 1) * query.PageSize` is computed in 32-bit unchecked `int` arithmetic and wraps | `PageNumber = 65537`, `PageSize = 65536`: the offset 2^32 wraps to 0 and the first page is listed instead of an empty page; other inputs wrap to a negative offset, which the database refuses | the offset of page `P` is `(P-1)*PageSize`, computed without overflow | medium, not executed | StockQuery.ListStocksAsWritten | StockQuery.ListStocks |

`StockQuery.WrappedOffsetReturnsFirstPage` proves the discrepancy; the stock
repository's `GetAllAsync` uses the corrected `ListStocks`.

## Left out

- Asynchrony, `SaveChangesAsync` and concurrent requests: each repository and controller call is one atomic step.
- AuthContext.AuthProvider.Login: the awaited API call is collapsed into one step, as it is for `Register`; `isLoading` is therefore never observably true, and a `logout` while a sign-in is pending, after which the sign-in's completion writes the user back (frontend/src/Context/AuthContext.tsx:51-54), cannot be expressed.
- Database collation and culture: `Contains` is ordinal substring search, `OrderBy` on strings is ordinal order, `ToLower` and the ignore-case comparisons map ASCII letters only.
- Row order of a listing: the model fixes one order, table order when no sort key is selected and a stable sort (insertion sort, table order among equal keys) when one is. The database promises neither: without `OrderBy` (api/Repository/StockRepository.cs:37-47) the query before `Skip`/`Take` (line 51) has no defined order, an `ORDER BY` leaves ties in any order, and each page is a separate query. `StockQuery.Sort` and `StockQuery.Ordered` state only what the source promises for a selected key (ordered by it, a permutation); `StockQuery.ListStocks`, `StockRepository.StockRepository.GetAllAsync`, `StockQuery.PagesAreConsecutive`, `StockQuery.ListOrder` (its no-sort half), `StockQuery.NoFilterKeepsAll` and `CommentRepository.CommentRepository.GetAllAsync` hold for the model's fixed order, which the database need not repeat from one request to the next.
- `Take(0)`: modelled as an empty page; how the database treats a zero fetch size is not modelled.
- StockQuery.ListStocks: requires `PageNumber >= 1` and `PageSize >= 0`, since a negative offset or page size is refused by the database rather than handled by the code.
- Eager loading (`Include(x => x.Comments)`, `Include(x => x.AppUser)`): a stock carries its comment list as stored; the comment's author record is not modelled.
- StockRepository.StockRepository.UpdateAsync: loads the stock without `Include` (api/Repository/StockRepository.cs:68), so the stock the program returns has an unloaded, empty comment list; the model returns the stored list.
- StockRepository.StockRepository.DeleteAsync: likewise loads the stock without `Include` (api/Repository/StockRepository.cs:89); the model returns the stored comment list with it.
- StockRepository.StockRepository.GetAllAsync: lists with the corrected offset `StockQuery.ListStocks`; the program's 32-bit offset, which wraps for offsets of 2^31 or more, is modelled separately by `StockQuery.ListStocksAsWritten`.
- Cascade deletes of comments and portfolio rows when a stock is deleted: not expressed in the repository code and not modelled.
- Id assignment: the database identity column is a counter starting at 1, which the model keeps as `nextId`.
- StockRepository.StockRepository.CreateAsync: requires a new row (`Id` 0). The source passes the caller's entity to `AddAsync` unchanged (api/Repository/StockRepository.cs:61), and a non-zero id is sent as an explicit identity value, which the database refuses; that failure is not modelled.
- CommentRepository.CommentRepository.CreateAsync: likewise requires `Id` 0 (api/Repository/CommentRepository.cs:36); an explicit non-zero id, which makes the insert fail, is not modelled.
- `GetBySymbolAsync`, `PortfolioRepository`, `UserManager.FindByNameAsync` and the claims lookup are not part of this model: the stock found by symbol and the insert's success are inputs, the user is given by id and assumed found, and the symbol is assumed non-null.
- PortfolioController.UserPortfolio: assumes `GetUserPortfolioAsync(appUser)` returns the stocks of the `Stocks` table whose id is paired with the user in `Portfolios`, in table order.
- PortfolioController.DeleteOutcomes: assumes `PortfolioRepository.DeleteAsync(appUser, symbol)` removes exactly the caller's pair for the one held stock that matched the symbol.
- PortfolioController.AddRespectsCompositeKey: assumes the stock found by symbol is a table stock whose symbol equals the argument ignoring case; the lookup itself is not part of this model.
- A failed portfolio insert (500), and an insert refused by the composite key, are modelled as leaving the join table unchanged; the body of the unhandled 500 is the framework's and is not modelled.
- `[EmailAddress]`: framework code, taken as a parameter `isEmail`.
- `\d` in the password pattern: read as ASCII `0-9`; .NET also matches other Unicode decimal digits.
- String length: `[MinLength]` and the pattern count UTF-16 code units; the model counts characters, which differ only for characters outside the Basic Multilingual Plane.
- The Identity policy's default `RequiredUniqueChars` (1) is not stated; any non-empty password meets it.
- AuthJson.Parse: reads only the object shape `JSON.stringify` writes for a user (properties `username`, `email`, `token` in that order, no white space); other JSON text, including JSON that is not a user object, is treated as a parse failure. A `\u` escape of a surrogate half that is not part of a high-then-low pair is refused, although `JSON.parse` would read it as a lone UTF-16 code unit, which is not a character here.
- The 401 response interceptor of the frontend's API service clears both storage keys but not the provider's state; it is not modelled.
- Login and registration on the server (token issuing, password hashing, user creation) and the HTTP service wrappers are not part of this model.
- Decimal fields (`Purchase`, `LastDiv`, `MarketCap`) and `CreatedOn` are carried as opaque values; no arithmetic is done on them.
