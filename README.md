# Paper-Trading backend core, modelled in Dafny

This project models the core of the Paper-Trading backend, a paper-trading server for simulated trades. It covers:

- **Settlement engine** (`StockHandler`):
  - A buy debits the user's balance. It then files the tracked order in the user's transactions table and portfolio table.
  - An order the balance cannot cover is shrunk once, to what the balance can pay.
  - A sell walks the user's buy lots from the cheapest `abs(cost_per_share)` up. Each lot gives up `min(lot, remaining)` shares at the bid. Partly sold lots are reduced. Emptied lots are archived in the transactions table and then deleted from the portfolio. The revenue is credited to the balance.
- **Per-user record store**: one table per user in each of two databases.
  - Operations: insert-if-absent, delete by uid, existence test, the buy-lot query, the owned symbols, the per-side share totals and the portfolio report.
- **User directory**:
  - building a user row and looking a user up by identifier;
  - the uniqueness check and its ordered reasons;
  - the password check and the deletion of a user's data.
- **Supporting pieces**:
  - the order record, its tuple and dict conversions, and the two response envelopes;
  - the zero padding and `$` framing of the encrypted payload;
  - the GUI router's query-string handling.

The modules follow the repository's files:

| Dafny file | source |
|---|---|
| `stock_record.dfy` | `records/stock_record.py` |
| `records_helper.dfy` | `records/records_helper.py` |
| `responses.dfy` | `records/server_response.py`, `utils/response.py` |
| `databases.dfy` | the database state: engines, metadata and the userbase table |
| `dynamic_databases.dfy` | `data/dynamic_databases/helper.py` |
| `userbase.dfy` | `data/userbase/helper.py` |
| `lot_matching.dfy` | the sell walk of `utils/stock_handler.py`, as pure definitions |
| `stock_handler.dfy` | `utils/stock_handler.py` |
| `encryption.dfy` | `utils/encryption.py` |
| `router.dfy` | `gui/Router.py` |
| `text.dfy`, `wrappers.dfy` | Python string operations used by these; Option and Result |

How the pieces are represented:

- **Mutable state**:
  - The databases are a class, `Databases.Databases`. Its fields are the userbase rows and, for each per-user database, a map from table name to table.
  - A table maps a row uid to its row.
  - `StockHandler`, `StockRecord`, `Router`, `ServerResponse` and `Response` are classes whose methods update their fields.
- **The handler's methods** are proved against pure specification functions. For example, `StockHandlers.Settle` specifies `deal_with_transaction` and `LotMatching.SellOutcome` specifies `sell_shares`. The properties are lemmas about those functions.
- **Numbers**: `np.double` is `real`.
- **Quote**: the market bid is an `Option<real>` parameter, `None` when no bid was fetched.
- **Collaborators**: hashes, base64, `int`, the AES decryptor, UTF-8 and JSON are function parameters.

**The sell path is modelled on its intended interface.** The code does not run as written; see "## Findings".

- As written, `sell_shares` calls `get_user_shares_by_symbol` with an `include_uid` argument the helper does not take. It also reads the helper's tuples as dicts.
- The model's walk instead reads lots with `uid`, `shares` and `cost_per_share`, which is exactly what the helper's query selects.
- The as-written behaviour is modelled beside it.

SQL leaves the row order of a query without ORDER BY open, so the query methods may list rows in any order. Their contracts state which rows they list: each matching row exactly once. The sell's outcome is stated for the sorted listing the query produced. The sort is Python's stable sort: lots of equal `abs(cost_per_share)` keep the order the query listed them in.

**The model follows the code in these respects:**

- Lots are sorted by `abs(cost_per_share)`, with no tie-break on the lot id.
- A buy writes the debited balance even when an insert fails. Nothing is rolled back.
- A lot holding no shares is not skipped: the walk visits it and empties it.
- A sell of no shares answers with the status text "Cannot buy 0 or fewer shares".
  - That path, and a user without a transactions table, return before the balance write.
  - A buy of no shares is not rejected.
- `remove_row_by_uid` returns None, not False, when the user's table is missing.
- Failures surface as status texts, flags and None results, not as a structured error result.
- A buy of a negative share count is covered by any balance of at least its negative total, and is filed as a lot of negative shares. A sell then takes `min(lot, remaining)` of such a lot, which is negative: revenue can be negative and more can be reported unsold than was requested (`LotMatching.NegativeLotOversells`). The bounds on unsold shares and revenue are stated for nonnegative lots.
- A buy at a zero cost per share divides by zero without raising. The route builds `cost_per_share` as an `np.double`, so `user_balance / cost_per_share` is numpy's division, which gives an infinity or nan with a warning. With a zero total cost the buy is uncovered only at a negative balance; the quotient is then -inf, the `max_shares >= 1` test fails, and the order is refused with "Internal Server Error". `StockHandlers.Settle` does the same.

## Model

| member | source | states |
|---|---|---|
| StockRecords.StatusFromValue | records/stock_record.py:11-14 | `Statuses(v)` succeeds exactly for "pending", "tracked" and "archived", and returns the member with that value |
| StockRecords.StatusValueRoundTrip | records/stock_record.py:11-14 | the three values are distinct: each member's value leads back to that member |
| StockRecords.WithTotalCostIdempotent | records/stock_record.py:41-42 | recomputing the total cost twice is the same as once, and the recomputation changes no field but `total_cost` |
| StockRecords.StockRecord.constructor | records/stock_record.py:20-36 | a new record holds its arguments, `total_cost = shares * cost_per_share`, the fresh uid and the import-time timestamp; status defaults to "pending" and notes to None |
| StockRecords.StockRecord.ToDict | records/records_helper.py:9-11 | `to_dict()` of a record: a snapshot of all ten fields, the uid always set |
| StockRecords.StockRecord.UpdateTotalCost | records/stock_record.py:41-42 | the new record is the old one with `total_cost` recomputed from the current shares; nothing else changes |
| StockRecords.StockRecord.CreateNewUid | records/stock_record.py:38-39 | only the uid changes, to the fresh value |
| RecordsHelper.ToDict | records/records_helper.py:9-11 | the keys are exactly the field names, each mapped to the attribute or, if unset, the class default |
| RecordsHelper.ToTuple | records/records_helper.py:20-22 | one entry per field, in declaration order, each the field's value |
| RecordsHelper.StockRecordSchema | records/stock_record.py:21-31 | the ten fields in declaration order; `uid`, `timestamp` and `total_cost` are not init arguments, and the record runs `__post_init__` |
| RecordsHelper.Initialized | records/records_helper.py:18 | `__init__` sets exactly the init fields, each to its keyword argument or else its default |
| RecordsHelper.PostInit | records/stock_record.py:33-42 | definition of `__post_init__`: AttributeError for an unset factor or a class without the hook, the product of two numbers as `total_cost` and a fresh uid, ValueError for a string times a bool, TypeError otherwise; its properties are the `PostInit*` lemmas |
| RecordsHelper.Construct | records/records_helper.py:18 | definition of `cls(**kwargs)` on a dataclass: TypeError for an init=False keyword or a required field left out, else the init fields set and `__post_init__` run if the class has one; its properties are `Initialized` and the `FromDict` lemmas |
| RecordsHelper.FromDict | records/records_helper.py:14-18 | definition of `from_dict`: the keys that are field names, passed to the constructor; its properties are `FromDictIgnoresExtraKeys`, `PlainFromDictDefaults`, `PlainFromDictToDict` and `StockRecordFromOwnDictFails` |
| RecordsHelper.FromDictIgnoresExtraKeys | records/records_helper.py:14-18 | keys that are not field names make no difference to `from_dict` |
| RecordsHelper.PlainFromDictDefaults | records/records_helper.py:14-18 | for a class whose fields all have defaults and no `__post_init__`, `from_dict` never raises; every field takes the dict's value or else its default |
| RecordsHelper.PlainFromDictToDict | records/records_helper.py:9-18 | for such a class, `from_dict(to_dict(r))` rebuilds `r` |
| RecordsHelper.StockRecordFromOwnDictFails | records/records_helper.py:14-18 | `StockRecord.from_dict(r.to_dict())` raises TypeError: the dict carries `uid`, `timestamp` and `total_cost`, which `__init__` does not take |
| RecordsHelper.FromTuple | records/records_helper.py:25-39 | the result is `__post_init__` run on the attributes the `setattr` loop assigns, over as many positions as both the fields and the tuple have |
| RecordsHelper.ZippedFields | records/records_helper.py:33-34 | after the first n assignments (field names being distinct), exactly the first n fields are set, each to the value at its position |
| RecordsHelper.PostInitSetsTotalAndUid | records/stock_record.py:33-42 | with numeric shares and cost per share (reals, or bools as 1 and 0), `__post_init__` sets `total_cost` to their product and the uid to the fresh value |
| RecordsHelper.Numeric | records/stock_record.py:41-42 | the values Python multiplies as numbers are exactly the reals and the bools, True counting 1 and False 0 |
| RecordsHelper.PostInitOfTrueShares | records/stock_record.py:33-42 | a record with `shares=True` and `cost_per_share=2.0` initialises with `total_cost` 2.0 |
| RecordsHelper.PostInitRefusesNonNumbers | records/stock_record.py:33-42 | a non-numeric factor makes `__post_init__` fail: ValueError exactly when a string meets a bool (the model reports ValueError for every string times a bool, numeric text included), TypeError otherwise, never AttributeError once both fields are set |
| RecordsHelper.StockRecordTupleRoundTrip | records/records_helper.py:20-39 | `StockRecord.from_tuple(r.to_tuple())` is `r` with a fresh uid and `total_cost` recomputed |
| RecordsHelper.StockRecordShortTupleFails | records/records_helper.py:33-37 | a tuple too short to reach `cost_per_share` makes `__post_init__` raise AttributeError |
| RecordsHelper.FromTupleNeedsPostInit | records/records_helper.py:37 | a class without `__post_init__` cannot be built by `from_tuple` (AttributeError) |
| Responses.ResponseSchema | records/server_response.py:5-10 | the five fields success, error, data, debug and extra: all init fields with defaults, no `__post_init__` |
| Responses.AsDict | utils/response.py:19-20 | `asdict` maps exactly the five field names, each to its attribute |
| Responses.ResponseRoundTrip | utils/response.py:19-27 | `Response.from_dict(r.to_dict()) == r` |
| Responses.FilteredFromDict | utils/response.py:25-27 | definition of `Response.from_dict`: the known keys, the rest at their defaults; its properties are `FilteredFromDictDefaults`, `ResponseRoundTrip` and `FromDictsAgree` |
| Responses.FilteredFromDictDefaults | utils/response.py:22-27 | from an empty dict every field takes its default; a key that is not a field name is ignored |
| Responses.FromDictsAgree | utils/response.py:22-27 | `Response.from_dict` and the inherited `BetterDataclass.from_dict` build the same object from every dict, and neither raises |
| Responses.ServerResponseRoundTrip | records/server_response.py:5-10 | `ServerResponse.from_dict(r.to_dict()) == r` |
| Responses.ServerResponseFromTupleFails | records/server_response.py:4-10 | `ServerResponse.from_tuple` raises AttributeError, the class having no `__post_init__` |
| Responses.ServerResponse.constructor | records/server_response.py:6-10 | a new response holds its arguments; the defaults are `success = False` and "" for the other four |
| Responses.ServerResponse.Reset | records/server_response.py:12-17 | every field returns to its class default, so `reset` is idempotent and leaves the object equal to a fresh `ServerResponse()` |
| Responses.ServerResponse.ToDict | records/records_helper.py:9-11 | the inherited `to_dict` is `asdict` of the five fields |
| Responses.Response.constructor | utils/response.py:6-10 | a new response holds its arguments; the defaults are `success = False` and "" for the other four |
| Responses.Response.Reset | utils/response.py:12-17 | every field returns to its class default, so `reset` is idempotent |
| Responses.Response.ToDict | utils/response.py:19-20 | the dict has exactly the field names, and `from_dict` reads the object back from it |
| Responses.Response.FromDict | utils/response.py:22-27 | a new response whose fields are the dict's known keys, the others at their defaults |
| Encryption.PadBinaryData | utils/encryption.py:15-32 | the result's length is a multiple of 16, it adds 1 to 16 bytes, it starts with the input, and every added byte is 0 |
| Encryption.PaddedLengthIsLeast | utils/encryption.py:28-30 | the padded length is the least multiple of 16 that exceeds the input's length |
| Encryption.AlignedGainsAFullBlock | utils/encryption.py:29 | an input whose length is a multiple of 16 gains a whole 16-byte block |
| Encryption.PrefixSlice | utils/encryption.py:57 | Python's `s[:n]`: a prefix of `s`, of length `n` when `0 <= n <= len(s)`, and all of `s` when `n >= len(s)` |
| Encryption.TruncatingThePaddingRestores | utils/encryption.py:57 | cutting `pad(x)` back to `len(x)` gives `x` |
| Encryption.Decrypt | utils/encryption.py:34-61 | any `$`-split other than three parts fails with the unpacking error |
| Encryption.DecryptedHadThreeParts | utils/encryption.py:44 | a successful decryption means the stored text held exactly two `$` |
| Encryption.DecryptRecoversThePlaintext | utils/encryption.py:44-61 | when the cipher yields `pad(x)`, the declared length is `len(x)` and the UTF-8 text of `x` does not start with `{`, the plaintext returned is that text |
| Routing.ParseQuery | gui/Router.py:38-40 | no pair exactly when the segment has no `=`; otherwise the key is the text before the first `=`, and the value is the text between the first and second `=` with `+` read as a space |
| Routing.FirstBadQuery | gui/Router.py:37-39 | the index of the first segment without `=`: all earlier ones parse, and if there is none, all parse |
| Routing.LastWriteWins | gui/Router.py:37-40 | after the segments are written, a key holds the value of the last segment that sets it; keys no segment sets keep their previous state |
| Routing.NoQueryKeepsData | gui/Router.py:34-35 | a route with no `?` has no segments and leaves `data` unchanged |
| Routing.Router.constructor | gui/Router.py:13-17 | `data` and `routes` start empty and nothing is shown |
| Routing.Router.RouteChange | gui/Router.py:30-43 | the page is the text before the first `?`; segments are written in order until one has no `=` (IndexError); after all are written, an unregistered page raises KeyError and a registered one is shown |
| DynamicDatabases.AddStockData | data/dynamic_databases/helper.py:311-371 | the tables and the flag are those of `Added`: False and unchanged for a record without a uid or one whose uid the table already holds; otherwise the table is created if missing, the row stored and True returned; the other database is untouched |
| DynamicDatabases.Added | data/dynamic_databases/helper.py:311-371 | the insert succeeds exactly when the record has a uid that the table does not hold yet, and a refused insert leaves the tables as they were |
| DynamicDatabases.AddedStoresExactlyTheRow | data/dynamic_databases/helper.py:338-364 | an accepted insert adds exactly that row under its uid, creating the table if needed, and changes no other row or table |
| DynamicDatabases.AddedKeepsWellKeyed | data/dynamic_databases/helper.py:346-348 | inserts keep every row stored under its own uid, so uids stay unique in every table |
| DynamicDatabases.AddedThenExists | data/dynamic_databases/helper.py:333-364 | after an insert with a uid the row exists, and the flag is True exactly when it did not exist before |
| DynamicDatabases.AddedThenRemoved | data/dynamic_databases/helper.py:141-180 | deleting the row just inserted into an existing table restores the tables, with result True |
| DynamicDatabases.RemoveRowByUid | data/dynamic_databases/helper.py:141-180 | the tables and the result are those of `Removed`: None when the table is missing, else whether a row was deleted |
| DynamicDatabases.Removed | data/dynamic_databases/helper.py:141-180 | the result is None exactly when the table is missing, and then nothing changes; no table is created or dropped |
| DynamicDatabases.DoesRowExistInTable | data/dynamic_databases/helper.py:233-261 | definition: the table exists and holds a row with that uid; the insert and delete lemmas state their results through it |
| DynamicDatabases.RemovedDeletesOnlyThatRow | data/dynamic_databases/helper.py:167-176 | the result is True exactly if the row existed; afterwards no row has that uid, and every other row and table is unchanged |
| DynamicDatabases.BuyLots | data/dynamic_databases/helper.py:405-411 | the lots selected are exactly the user's rows on the buy side whose symbol is the upper-cased symbol, each as (uid, shares, cost per share), and none when the table is missing |
| DynamicDatabases.SelectOwnedRows | data/dynamic_databases/helper.py:405-409 | the scan returns the uids of exactly the matching rows, each once |
| DynamicDatabases.LotsOf | data/dynamic_databases/helper.py:411 | one lot per selected uid, in the same order: its uid, shares and cost per share |
| DynamicDatabases.GetUserSharesBySymbol | data/dynamic_databases/helper.py:376-416 | the list holds every row `BuyLots` selects exactly once, in some order, and is empty when the table is missing |
| DynamicDatabases.HoldingsOf | data/dynamic_databases/helper.py:461-465 | one entry per selected row, in the same order: its timestamp, shares and cost per share |
| DynamicDatabases.GetOwnedUserSharesBySymbol | data/dynamic_databases/helper.py:422-470 | the same rows, each once, reported as (timestamp, shares, cost per share); empty when the table is missing |
| DynamicDatabases.CompileUserPortfolio | data/dynamic_databases/helper.py:592-609 | the report's keys are exactly the owned symbols, each mapped to the report of its rows |
| DynamicDatabases.GetUniqueSymbolsOwned | data/dynamic_databases/helper.py:497-531 | definition: the distinct symbols of the user's buy rows, none for a missing table; `CompileUserPortfolio` and `OwnedSummaryIsUniqueSymbols` are stated through it |
| DynamicDatabases.ReportSkipsLowerCaseSymbols | data/dynamic_databases/helper.py:592-609 | the symbols are stored as given but looked up upper-cased, so a symbol with no upper-case match reports no holdings |
| DynamicDatabases.SymbolsOnSide | data/dynamic_databases/helper.py:565-577 | the groups are exactly the symbols of the rows on that side |
| DynamicDatabases.GroupSumShares | data/dynamic_databases/helper.py:563-577 | the accumulated map gives each symbol on the side the sum of the shares of its rows |
| DynamicDatabases.GetSummary | data/dynamic_databases/helper.py:535-590 | the summary is the per-side totals for transactions, only "owned" (the buy totals) for portfolios, and two empty sides when the table is missing |
| DynamicDatabases.Summary | data/dynamic_databases/helper.py:535-590 | definition of the summary: both sides empty for a missing table, buy and sell totals for transactions, only "owned" for portfolios; `InsertRaisesItsTotal` and `OwnedSummaryIsUniqueSymbols` are about it |
| DynamicDatabases.OwnedSummaryIsUniqueSymbols | data/dynamic_databases/helper.py:579-583 | for the portfolios database the summary has only the key "owned", keyed by exactly the owned symbols |
| DynamicDatabases.InsertRaisesItsTotal | data/dynamic_databases/helper.py:565-577 | inserting a new row raises the total of its own side and symbol by its shares, and no other total |
| UserbaseHelper.CreateUserModel | data/userbase/helper.py:16-43 | None exactly when username or password is missing; otherwise the hashed username and password, and any given email, the empty one included |
| UserbaseHelper.CreatedEmailIsLowerCase | data/userbase/helper.py:37-38 | the stored email is the given one lower-cased, hence already lower-case |
| UserbaseHelper.IdentifierFromValue | data/userbase/helper.py:61-63 | only the five column names are identifiers |
| UserbaseHelper.MatchingUsers | data/userbase/helper.py:68-69 | the filter keeps exactly the rows whose chosen column equals the value |
| UserbaseHelper.GetUserFromUserbase | data/userbase/helper.py:45-78 | None for "password" and for non-identifiers; otherwise a user exactly when one row matches, and it is that row |
| UserbaseHelper.LookupByUuidFindsTheUser | data/userbase/helper.py:66-70 | with the uuid as primary key, looking a user up by uuid finds exactly that user |
| UserbaseHelper.CheckUniqueness | data/userbase/helper.py:83-119 | (False, None) when neither field is given; otherwise the reasons are exactly the clashing fields, "email" before "username" (email compared raw, username hashed), and (True, None) when nothing clashes |
| UserbaseHelper.PasswordMatches | data/userbase/helper.py:121-127 | False when the lookup finds no user; otherwise True exactly when the stored hash is the hash of the password |
| UserbaseHelper.StoredPasswordMatches | data/userbase/helper.py:121-127 | a user whose row stores the hash of the password is recognised by uuid with it |
| UserbaseHelper.WithoutUser | data/userbase/helper.py:145 | the delete keeps exactly the rows with another uuid |
| UserbaseHelper.DynamicDbOfName | data/get_databases.py:91-106 | a name selects the transactions or the portfolios database exactly when its lower-case form is that database's name, and no database otherwise |
| UserbaseHelper.Deleted | data/userbase/helper.py:129-173 | definition of `delete_user_data`: the user's row leaves the userbase (True); in a per-user database, an existing table of the user is emptied (True) and a missing one gives False; an unknown database name raises UnboundLocalError; its property is `DeletedTouchesOnlyThatUser` |
| UserbaseHelper.DeleteUserData | data/userbase/helper.py:129-173 | the new state and the result are those of `Deleted` |
| UserbaseHelper.DeletedTouchesOnlyThatUser | data/userbase/helper.py:141-167 | for "userbase" exactly that user's rows go, with result True; for a per-user database the result is True exactly when the user has a table there, which is then emptied, and every other table and the userbase stay as they were; nothing changes unless the result is True |
| LotMatching.SortByAbsCost | utils/stock_handler.py:174 | the lots ascending by `abs(cost_per_share)`, as a permutation of the input, and stable: for every key the lots with that key keep their order |
| LotMatching.InsertSorted | utils/stock_handler.py:174 | inserting into a sorted list keeps it sorted and adds exactly that lot |
| LotMatching.InsertWithKey | utils/stock_handler.py:174 | a lot inserted into a listing goes in front of the lots of its own key and leaves the order of every other key alone |
| LotMatching.SortKeepsTiesInOrder | utils/stock_handler.py:174 | two lots of equal cost, listed a before b, stay in that order |
| LotMatching.SortKeepsDistinct | utils/stock_handler.py:174 | sorting keeps the uids distinct |
| LotMatching.SortedListsExactly | utils/stock_handler.py:174 | the sorted list lists the same lots as the query, each once |
| LotMatching.WalkShape | utils/stock_handler.py:180-189 | the walk visits a prefix of the sorted lots; each visited lot gives up `min(lot, remaining)` with something still to sell before it; the walk stops when nothing is left or the lots run out; the revenue is the shares sold times the bid; every lot before the last visited one is emptied |
| LotMatching.EarlierLotsEmptied | utils/stock_handler.py:183-189 | every visited lot but the last is taken whole |
| LotMatching.WalkUnsold | utils/stock_handler.py:180-189 | with no negative lots, the shares left unsold are exactly the shortfall of the lots, between 0 and the request, and 0 when the lots hold enough |
| LotMatching.SharesConserved | utils/stock_handler.py:187-192 | the shares left in the lots plus the shares sold equal the shares the lots held |
| LotMatching.EmptiedMembers | utils/stock_handler.py:197-203 | a uid is scheduled for removal exactly when a visited lot with that uid was emptied |
| LotMatching.UpdatesLeaveOtherRows | utils/stock_handler.py:192-201 | rows no visited lot names keep their values in both tables |
| LotMatching.UpdatesOfVisitedLot | utils/stock_handler.py:192-201 | a visited lot with shares left is reduced to them (its total cost untouched); an emptied one is archived |
| LotMatching.Committed | utils/stock_handler.py:192-209 | definition of the committed state: reduced portfolio rows, archived transaction rows of emptied lots, then the emptied lots deleted; missing tables left alone; its property is `CommittedRows` |
| LotMatching.CommittedRows | utils/stock_handler.py:192-209 | after the commit: unvisited rows unchanged; reduced lots hold exactly `lot - take`; emptied lots gone from the portfolio and archived in the transactions; other users' tables and the userbase untouched |
| LotMatching.FirstEmptied | utils/stock_handler.py:182-199 | the index of the first visited lot that was emptied, if any |
| LotMatching.SellOutcomeBounds | utils/stock_handler.py:180-221 | whatever path a sell takes: the revenue is the shares sold times the bid, and with no negative lots `0 <= unsold <= requested` |
| LotMatching.SellOutcome | utils/stock_handler.py:151-221 | definition of `sell_shares` on the corrected lot interface: no shares or no bid gives (0, shares) and no change; an emptied lot without a transactions table rolls back with all shares unsold; otherwise the walk is committed; its properties are the `Walk*`, `Committed*` and `SellOutcomeBounds` lemmas |
| LotMatching.SellOutcomeAsWritten | utils/stock_handler.py:180-221 | definition of the same walk with the rebinding of `shares`: the exception path reports the emptied lot's size as unsold; `RebindingMisreportsUnsold` shows where it differs |
| LotMatching.SellSharesAsWritten | utils/stock_handler.py:167-168 | definition of `sell_shares` as written: the `include_uid` keyword raises TypeError inside the `try`, so the result is (0, shares) and nothing changes; `AsWrittenSellNeverSells` shows where it differs |
| LotMatching.AsWrittenSellNeverSells | utils/stock_handler.py:167-168 | counterexample: selling 4 of 10 held shares at a bid of 2 gives 0 revenue, 4 unsold and an unchanged state as written, while the corrected sell gives 8 revenue, 0 unsold and a changed portfolio |
| LotMatching.NegativeLotOversells | utils/stock_handler.py:185-189 | counterexample for the nonnegativity the bounds assume: a lot of -5 shares, sold 3 at 2, earns -10 and reports 8 unsold |
| LotMatching.RebindingMisreportsUnsold | utils/stock_handler.py:182 | counterexample: with the rebinding, the exception path reports 3 of 5 shares unsold where 5 were requested |
| LotMatching.PartialSellShrinksTheLot | utils/stock_handler.py:180-214 | with the lot interface corrected, selling 4 of 10 held shares at a bid of 2 earns 8, leaves the lot with 6, and archives nothing |
| LotMatching.SellReducesTheCheapestLot | utils/stock_handler.py:174-214 | with a lot of 10 at 3 listed before a lot of 10 at 1, selling 4 at a bid of 2 earns 8 and takes the shares from the cheaper lot, which keeps 6; the dearer lot and the transactions are untouched |
| LotMatching.OneLotWalk | utils/stock_handler.py:180-189 | selling 5 out of a lot of 3 takes the whole lot and leaves 2 unsold |
| StockHandlers.SetBalance | utils/stock_handler.py:127-133 | the update sets the balance of the rows with that uuid and changes no other row |
| StockHandlers.UpdateBalance | utils/stock_handler.py:127-133 | the databases after the write are the old ones with that balance set |
| StockHandlers.WalkLots | utils/stock_handler.py:179-203 | the loop's revenue, unsold shares, pending updates and removal list are those of the specification walk; it raises exactly when an emptied lot has no transactions table to archive in |
| StockHandlers.RemoveRows | utils/stock_handler.py:208-209 | the removal loop deletes exactly the listed uids from the user's portfolio table and touches nothing else |
| StockHandlers.CommitSell | utils/stock_handler.py:205-209 | the commits store the pending tables where the user has them, then the emptied lots are deleted from the portfolio |
| StockHandlers.StockHandler.constructor | utils/stock_handler.py:23-24 | the status starts empty |
| StockHandlers.StockHandler.SellShares | utils/stock_handler.py:138-224 | the lots walked are exactly the user's buy lots of the symbol, each once; the new state and (revenue, unsold) are `SellOutcome` of their sorted order |
| StockHandlers.StockHandler.FileBuy | utils/stock_handler.py:45-71 | the record becomes tracked and is inserted into both databases; the status is "bought" only if both inserts succeed |
| StockHandlers.StockHandler.FileSell | utils/stock_handler.py:104-123 | the record takes the shares sold and status archived and is inserted into the transactions; the status reports the sale or the failure |
| StockHandlers.StockHandler.BuyAndDebit | utils/stock_handler.py:41-71 | the filing of a covered buy followed by the write of the debited balance |
| StockHandlers.StockHandler.SellAndCredit | utils/stock_handler.py:99-123 | the walk, the filing and the balance credited with the revenue, as `SoldAndCredited` states |
| StockHandlers.StockHandler.DealWithTransaction | utils/stock_handler.py:27-134 | the new databases, record and status are exactly `Settle` of the old ones, for the sorted listing of the user's buy lots |
| StockHandlers.StockHandler.DealWithBuy | utils/stock_handler.py:40-84 | the buy side agrees with `Settle` |
| StockHandlers.StockHandler.RetryBuy | utils/stock_handler.py:76-82 | the order is shrunk to `balance / cost_per_share` shares and settled again, which agrees with `Settle` |
| StockHandlers.StockHandler.DealWithSell | utils/stock_handler.py:85-123 | the sell side agrees with `SettledSell`; the walked lots are the user's buy lots of the symbol |
| StockHandlers.SettleBuy | utils/stock_handler.py:40-84 | the three buy branches: covered, shrink and retry, refused |
| StockHandlers.SettleSell | utils/stock_handler.py:85-123 | a positive sell of a found user with a transactions table is the walk, the filing and the credit |
| StockHandlers.Settle | utils/stock_handler.py:27-134 | definition of `deal_with_transaction`: the user lookup, the three buy branches with one shrink in exact arithmetic, the sell side, and the final balance write; its properties are the `Settle*`, `*Changes*`, `*Debits`, `*Solvent` lemmas |
| StockHandlers.BuyAsWritten | utils/stock_handler.py:40-84 | definition of the buy branch in a given arithmetic with a recursion budget: filed when the balance covers `shares * cost`, otherwise shrunk to `balance / cost` and retried while that is at least one share |
| StockHandlers.RoundedRetryNeverSettles | utils/stock_handler.py:72-82 | when rounding makes `(balance / cost) * cost` exceed the balance, every retry recomputes the same share count, so the buy ends only at the recursion limit, whatever the budget |
| StockHandlers.ExactRetrySettles | utils/stock_handler.py:72-82 | in exact arithmetic the first retry files the order at `balance / cost` shares |
| StockHandlers.MissingUserChangesNothing | utils/stock_handler.py:31-36 | without the user's row nothing is written and the status is "Internal Server Error" |
| StockHandlers.CoveredBuyDebits | utils/stock_handler.py:40-71 | a covered buy debits exactly the total cost, tracks the record, and reports success exactly when the uid was new to both tables; then the identical row is under its uid in both; the debit happens even when an insert fails |
| StockHandlers.RetriedBuySpendsTheBalance | utils/stock_handler.py:72-82 | a shrinkable buy is settled as `balance / cost_per_share` (at least 1) shares costing exactly the balance, which leaves the balance 0 |
| StockHandlers.RewriteKeepsUserbase | utils/stock_handler.py:127-133 | writing a user's own balance back leaves the userbase as it was |
| StockHandlers.UnsettledChangesNothing | utils/stock_handler.py:76-84 | a buy that cannot be shrunk to one share, and a side that is neither buy nor sell, change no table and no balance |
| StockHandlers.EarlyReturnsChangeNothing | utils/stock_handler.py:89-96 | a sell for a user without a transactions table, or of no shares, writes nothing; the latter sets "Cannot buy 0 or fewer shares" |
| StockHandlers.SellCreditsTheRevenue | utils/stock_handler.py:99-123 | a positive sell credits `(shares - unsold) * bid`; with no negative lots, it files the record with the shares sold (between 0 and the request) and status archived; no other balance changes |
| StockHandlers.SettleKeepsUsersSolvent | utils/stock_handler.py:40-133 | given solvent users, a nonnegative bid and nonnegative lots, no settlement drives a balance below 0 |
| StockHandlers.BuyKeepsUsersSolvent | utils/stock_handler.py:40-84 | no buy drives a balance below 0 |
| StockHandlers.SellKeepsUsersSolvent | utils/stock_handler.py:99-133 | at a nonnegative bid and with nonnegative lots, no positive sell drives a balance below 0: the revenue credited is nonnegative |
| StockHandlers.RevenueNonNegative | utils/stock_handler.py:187-188 | at a nonnegative bid and with no negative lots, a positive sell's revenue is nonnegative |

## Left out

- **Persistence.** SQLAlchemy engines, sessions, schema reflection and table generation are not modelled.
  - A commit is an assignment to the state.
  - A rollback is the absence of one.
  - There is no atomicity across the three databases, as in the code.
- **Concurrency.** Interleaved settlements are not modelled, because the code takes no locks.
- **Market data.** The yfinance lookup is a network call. The bid is an `Option<real>` parameter instead.
- **Status messages.** The formatted texts and their `int(x * 100) / 100` rounding are kept as tags carrying the numbers they report.
- **Floating point.** `np.double` arithmetic is exact `real` arithmetic in `Settle` and everything built on it.
  - The shrunk buy's `(balance / cost_per_share) * cost_per_share` is exactly the balance there, so one retry always settles.
  - In doubles that product can round above the balance. The retry then recomputes the same share count, and `deal_with_transaction` recurses until RecursionError escapes; see "## Findings". `BuyAsWritten` models that path with the arithmetic as a parameter.
- **Collaborators.** Hashes, base64, `int`, the AES cipher, the UTF-8 decoder and JSON parsing are function parameters.
- **Case mapping** is ASCII only.
- **Timestamp.** The timestamp is an opaque integer, fixed at import.
- **GUI.** The view objects and the flet body update are not modelled. A view is represented by its page key.
- **`get_all_symbols_count` and `move_row_between_databases`** are not part of this model: the first is broken and the second is plumbing.
- **Exceptions.** Exceptions inside the store helpers' `try` blocks are modelled only where the model's data can raise them. One example: a sell that empties a lot while the user has no transactions table.
- **Dynamic typing:**
  - Values are modelled only as far as the `Value` datatype covers them.
  - `get_owned_user_shares_by_symbol` returns `{}`, not `[]`, for a missing table; both are modelled as the empty list.
  - Under a database name that is not configured, `get_database_variables_by_name` returns None, and every store helper unpacks that result outside its `try`, so the call raises TypeError and the helpers' `metadata is None` checks never fire. The model only knows the two configured databases, so this error is not modelled.
- UserbaseHelper.IdentifierFromValue: reads `identifier not in UserIdentifiers` as a test against the members' values, which is the Enum behaviour of Python 3.12 and later. Before 3.12 a string operand raises TypeError outside the `try`, so every lookup fails, and with it every `deal_with_transaction`.
- UserbaseHelper.GetUserFromUserbase: assumes the same Python 3.12 membership test as `IdentifierFromValue`.
- StockHandlers.StockHandler.DealWithTransaction: requires that a zero cost per share comes with a zero total cost, a fact for every record built by the constructor. The contract does not cover a record whose `total_cost` was set inconsistently.
  - On such a record the code divides by zero. When the division gives infinity, the code recurses without end.
- StockHandlers.StockHandler.DealWithBuy: shares the zero-cost requirement.
- RecordsHelper.PostInit: a string times True is the string itself, and `np.double` converts a string that spells a number (such as "2.5"). The model reports ValueError for every string times a bool, numeric text included, because the model has no number parser.
- StockHandlers.StockHandler.RetryBuy: shares the zero-cost requirement.
- LotMatching.SellOutcome: the walk's error path is modelled only for the missing transactions table, not for arbitrary database errors.

## Findings

| source | as written | input that shows it | evidently intended | confidence | as-written member | corrected member |
|---|---|---|---|---|---|---|
| utils/stock_handler.py:168-182 | `sell_shares` passes `include_uid=True`, which `get_user_shares_by_symbol` does not accept. It also indexes the helper's `(uid, shares, cost_per_share)` tuples as dicts. The TypeError is caught, so every sell returns `(0, shares)` and changes nothing. | selling 4 of 10 held shares at a bid of 2: 0 revenue and 4 unsold instead of 8 revenue and 0 unsold | walk the lots as records with uid, shares and cost per share, cheapest first | not executed | LotMatching.AsWrittenSellNeverSells | LotMatching.SellReducesTheCheapestLot |
| utils/stock_handler.py:182-221 | the loop rebinds `shares` to the current lot's share count, so the exception handler's `(0, shares)` reports that lot's size as unsold. The path is reachable only by calling `sell_shares` directly: `deal_with_transaction` returns at lines 87-91 when the user has no transactions table. | one lot of 3 shares, a sell of 5 at 12, and no transactions table for the user: 3 are reported unsold | report the requested 5 shares unsold | not executed | LotMatching.RebindingMisreportsUnsold | LotMatching.SellOutcomeBounds |
| utils/stock_handler.py:72-82 | the shrunk order is `balance / cost_per_share` shares with total `shares * cost_per_share`, both in doubles; when the product rounds above the balance, the retry finds the order uncovered again, recomputes the same share count and recurses until RecursionError | a buy of 21 shares at 355.6 with a balance of 7215.12: 7215.12 / 355.6 * 355.6 is 7215.120000000001 in doubles | one retry that buys what the balance covers | not executed | StockHandlers.RoundedRetryNeverSettles | StockHandlers.RetriedBuySpendsTheBalance |
