# Menu voice agent: search engine, order ledger and catalog shaping in Dafny

This project models the decision logic of a voice ordering assistant's
backend. It has three parts:

- **Menu search.** `search_items` resolves a spoken query against a
  read-only catalog. Each item is classified in three tiers, and the first
  tier that applies wins:
  - *exact*: case-insensitive equality, score 1.0;
  - *partial*: substring containment in either direction, score 0.9;
  - *fuzzy*: a similarity ratio, kept only at or above the threshold.

  The matches are then sorted stably by descending score.
- **Order ledger and pricing.** A store maps session ids to carts. A cart is
  a list of order lines plus a running total. Create-session, add, remove,
  summary and clear change or read this store. `calculate_item_price` adds
  modifier prices to an item's base price.
- **Catalog shaping.** `clean_category_name` turns a CSV file name into a
  category title. `parse_modifiers` files decoded modifier groups as
  required or optional.

Modules:

- `Wrappers`: Option and Result.
- `Strings`: ASCII lower-casing and Python's substring test.
- `Menu`: the catalog records.
- `Pricing`: `calculate_item_price`.
- `MenuSearch`: `search_items`.
- `OrderLedger`: the session store, as a class `Ledger` whose field
  `orders: map<string, Cart>` the methods reassign.
- `MenuConvert`: `clean_category_name` and `parse_modifiers`.

Modelling choices:

- Money is integer cents. Rounding to two decimal digits is then the
  identity, so "total = sum of line subtotals" holds exactly and is an
  object invariant of the ledger (`Ledger.Valid`).
- The catalog is a value `Catalog(order, items)`. `items` is the item
  dictionary and `order` is its iteration order. That order breaks ties in
  the stable sort. Search and pricing only read the catalog, which no
  operation can change.
- The similarity ratio (`difflib.SequenceMatcher(...).ratio()`) is a
  function parameter `similarity`. It is applied to the two lower-cased
  strings, as `similarity_score` does. Lemmas that need its range assume
  `IsRatio`, meaning values in [0, 1]. Lemmas that need a ratio of 1.0 to
  mean equal strings, as for Ratcliff/Obershelp matching, assume
  `OneOnlyWhenEqual`.
- The fresh session id (`uuid.uuid4()`) and the timestamp
  (`datetime.now()`) are method parameters. The fresh id is required to be
  non-empty and absent from the store.
- JSON decoding in `parse_modifiers` is a function parameter `decode`
  returning `None` on a decoding error. A missing or NaN cell is `None`.
- The session id, the item id and the item index are `Option`s. A
  missing field and one sent as `null` give the same reply. For the two
  ids an empty string counts as missing too, but the item index is tested
  with `is None` (`app.py:353`), so 0 is a valid index.
- The add endpoint's `modifier_ids` and `quantity` are a `Field`: left
  out, sent as `null`, or given. Left out, they default to
  `[]` and 1 (`app.py:249-250`). Sent as `null`, they make the pricing step
  raise after the session was resolved or created (`app.py:267-271`).
- The error replies are the `LedgerError` values:
  - `ItemIdRequired`: 400 "Item ID is required";
  - `ItemNotFound`: 404;
  - `InvalidSession`: 400;
  - `ItemIndexRequired`: 400 "Valid item index is required";
  - `ItemIndexOutOfRange`: 400;
  - `InternalError`: the 500 reply for an exception raised by the handler.

Two consequences of the code worth knowing:

- **Duplicate modifier ids.** The `break` at `app.py:57` leaves only the
  option loop, so an id offered by several groups is charged once per
  group (`Pricing.IdChargedPerGroup`).
- **Exact-name queries.** An exact-name match scores 1.0. A fuzzy match
  can reach 1.0 only when the ratio is 1.0 for unequal lower-cased
  strings, which `SequenceMatcher.ratio()` never gives. So every result
  ranked up to the item is itself an item of that name ignoring case
  (`MenuSearch.ExactNameLeads`). When names are distinct ignoring case,
  the item comes first (`MenuSearch.ExactNameFirst`). Without an
  assumption on the ratio, only results scoring 1.0 come before it
  (`MenuSearch.ExactNameRanksFirst`).

## Model

| member | source | states |
|---|---|---|
| `Pricing.CalculateItemPrice` | app.py:42-59 | The nested scan (ids, then required-then-optional groups, then options up to the first match) returns `ItemPrice(catalog, id, mods)`. An unknown item is priced 0. |
| `Pricing.FirstOptionPrice` | app.py:54-57 | A group charges the price of its first option with the requested id, or 0 when no option has it. |
| `Pricing.ModifiersPriceAppend` | app.py:51-57 | Each requested id is charged independently: the price of `a + b` is the price of `a` plus the price of `b`. So each occurrence is counted. |
| `Pricing.ModifiersPriceOrderIrrelevant` | app.py:51-57 | Two lists of modifier ids with the same multiset give the same price. |
| `Pricing.UnmatchedIdsAddNothing` | app.py:51-57 | Ids that no option of any group carries add nothing. |
| `Pricing.GroupsPriceAppend` | app.py:53-57 | The charge for an id over `required + optional` is the sum of the charges over each list. |
| `Pricing.IdChargedPerGroup` | app.py:53-57 | Because the `break` ends only the option loop, an id is charged by the required groups and again by the optional groups. |
| `Pricing.PriceAtLeastBase` | app.py:48-59 | With non-negative option prices, an item's price is at least its base price. |
| `MenuSearch.Classify` | app.py:71-104 | A result, when there is one, carries the item's id, name, category and base price. |
| `MenuSearch.ClassifyTiers` | app.py:71-104 | The tiers are exclusive, each in both directions. Exact means case-insensitive equality, with score 1.0. Partial means not exact and substring either way, with score 0.9. Fuzzy means neither, with score = similarity ≥ threshold. Otherwise no result. |
| `MenuSearch.SearchItems` | app.py:65-108 | The loop's appends followed by the stable descending sort return `Search(query, catalog, similarity, threshold)`. |
| `MenuSearch.SortPermutes` | app.py:106-107 | The sort is a permutation: it drops, adds and duplicates nothing. |
| `MenuSearch.SortRanked` | app.py:106-107 | Sorting a list whose keys strictly increase gives descending scores with ties in the original order (stability). |
| `MenuSearch.SearchSound` | app.py:70-104 | No invented items. Every result's id is a catalog key, and the result is exactly that item's classification. |
| `MenuSearch.SearchComplete` | app.py:70-108 | Every catalog item that classifies to a result appears in the list, which is not truncated. |
| `MenuSearch.SearchRanked` | app.py:106-108 | Scores do not increase along the list. Equal scores keep catalog iteration order. No item appears twice. |
| `MenuSearch.SearchDescending` | app.py:106-107 | Scores never increase along the result list. |
| `MenuSearch.SearchThreshold` | app.py:73-104 | Exact results score 1.0 and partial results 0.9 whatever the threshold. Fuzzy results score at least the threshold. |
| `MenuSearch.SearchScoresBounded` | app.py:61-104 | With a ratio in [0, 1], every score is in [0, 1]. |
| `MenuSearch.ExactNameRanksFirst` | app.py:73-107 | A query equal to an item's name up to letter case gives that item as an exact result with score 1.0. Only results scoring 1.0 come before it. |
| `MenuSearch.ExactNameLeads` | app.py:61-107 | With a ratio that is 1.0 only for equal strings, a query equal to an item's name up to letter case gives that item as an exact result, and every result up to it is an exact match on a name equal to the query ignoring case. |
| `MenuSearch.ExactNameFirst` | app.py:61-107 | If, in addition, no two item names are equal ignoring case, that item is the first result, as an exact match. |
| `MenuSearch.SearchEmptyIffNothingMatches` | app.py:70-108 | The result list is empty exactly when no catalog item passes any tier. An unmatched query gives an empty list, not an error. |
| `OrderLedger.RemoveAt` | app.py:368 | `pop(i)` leaves one element fewer. The others keep their relative order. The removed line is taken out of the multiset. |
| `OrderLedger.SubtotalsAppend` | app.py:285-288 | Appending a line adds its subtotal to the sum of subtotals. |
| `OrderLedger.SubtotalsRemoveAt` | app.py:368-369 | Popping a line takes exactly its subtotal off the sum of subtotals. |
| `OrderLedger.AppendKeepsCartValid` | app.py:284-288 | An appended line priced from the catalog keeps "total = sum of subtotals" and the line invariants. |
| `OrderLedger.RemoveKeepsCartValid` | app.py:367-369 | Popping a line and subtracting its subtotal keeps the cart invariant. |
| `OrderLedger.Ledger.constructor` | app.py:20-22 | The store starts empty over a given catalog. |
| `OrderLedger.Ledger.GetOrCreateSession` | app.py:28-40 | A non-empty known id is returned and the store is unchanged. Otherwise, including a given but unknown id, the fresh id gets an empty cart with total 0 and every other session is untouched. |
| `OrderLedger.Ledger.AddToOrder` | app.py:243-288 | A missing or empty item id, then an unknown one, is rejected with the store unchanged. Then the session is resolved or created. If `modifier_ids` or `quantity` was sent as `null`, the reply is the internal error and the store keeps only that session step. Otherwise, with `[]` and 1 for left-out fields, exactly one line is appended to that session. The line holds a name and base-price snapshot, `itemTotal = ItemPrice` and `subtotal = itemTotal * quantity`, with quantity unchecked. The total grows by the subtotal. Other sessions are unchanged and the total invariant is kept. |
| `OrderLedger.Ledger.AppendLine` | app.py:284-288 | The append step of `AddToOrder`: exactly the given session's cart gets the line at its end and the line's subtotal added to its total; the new total is returned, other sessions are unchanged and `Valid()` is kept. |
| `OrderLedger.Ledger.Summary` | app.py:303-324 | An absent or unknown session gives the empty view with no session id. A known one shows its lines, `itemCount = len(items)` and a total equal to the sum of subtotals. It reads the store and changes nothing. |
| `OrderLedger.Ledger.ClearOrder` | app.py:332-333 | Deletes only the given key, and only when it is known. Otherwise nothing changes. It never fails, so repeating it changes nothing more. |
| `OrderLedger.Ledger.RemoveFromOrder` | app.py:347-369 | Checks run in order: unknown session, then missing or negative index, then index ≥ length. Each failure leaves the store unchanged. On success the line at the index is returned and removed, and the total drops by its subtotal. Other sessions are unchanged. |
| `OrderLedger.BreakfastOrderScenario` | test_api.py:214-303 | The test's order flow on a two-item menu, with ids given directly instead of found by search. Two pancakes at 8.00 total 16.00, and the summary then shows that one line. Adding one omelet at 12.00 gives 28.00. Removing line 0 returns the pancake line and leaves 12.00. After clearing, the summary is the empty view. |
| `MenuConvert.CleanCategoryName` | convert_menu_data.py:12-39 | The result is the stem with `_` as spaces, title-cased, unless a table key occurs in it. Then the first such key, in table order, replaces the whole name by its value. There is at most one replacement. |
| `MenuConvert.TitleAt` | convert_menu_data.py:18 | `str.title()` raises the first letter of each letter run and lowers the rest. Non-letters are kept. |
| `MenuConvert.TitleIdempotent` | convert_menu_data.py:18 | Title-casing an already title-cased name changes nothing. |
| `MenuConvert.StemOfCsv` | convert_menu_data.py:15 | The stem of `base.csv` is `base` for a non-empty base. |
| `MenuConvert.GrabAndGoExample` | convert_menu_data.py:21-37 | `grab_n_go.csv` becomes "Grab & Go" through the seventh table entry. |
| `MenuConvert.FirstChooseUpTo` | convert_menu_data.py:64 | `re.search` finds the leftmost position where `Choose Up To ` is followed by a digit. |
| `MenuConvert.DigitRun` | convert_menu_data.py:64 | The greedy `\d+` captures the longest digit run at that position. |
| `MenuConvert.MaxSelectionsSpec` | convert_menu_data.py:61-66 | `max_selections` is present exactly when `Choose Up To ` followed by a digit occurs. Its value is the integer of the digit run after the leftmost such occurrence. |
| `MenuConvert.MatchImpliesGuard` | convert_menu_data.py:62-64 | A regex match implies the `'Choose Up To' in name` guard, so the guard never changes the result. |
| `MenuConvert.BuildOptions` | convert_menu_data.py:69-75 | There is one option per source modifier, in order. `id` and `name` are copied and a null price becomes 0. |
| `MenuConvert.ParseModifiers` | convert_menu_data.py:41-93 | A missing cell, the literal `[]` or a decoding failure gives two empty lists. Otherwise the result is the required/optional partition of the shaped groups, with the group name copied verbatim. |
| `MenuConvert.PartitionSizes` | convert_menu_data.py:77-81 | `len(required) + len(optional) = len(groups)`. |
| `MenuConvert.FiledPermutes` | convert_menu_data.py:77-81 | For any shaping of groups, filing by the required flag splits the shaped list into two lists whose union, as a multiset, is the whole. |
| `MenuConvert.PartitionPermutes` | convert_menu_data.py:77-81 | The two lists together hold every shaped group exactly as often as it was decoded, so each group is filed exactly once. |
| `MenuConvert.PartitionAppend` | convert_menu_data.py:55-86 | Groups are filed one by one, so each list keeps the decoded order. Filing `a + b` gives the lists for `a` followed by those for `b`. |

## Left out

- HTTP plumbing is not modelled: routing, `request.json`, `jsonify`, CORS, status codes and the 404 handler for unknown routes. Outcomes are `Result` values instead; the 500 handler's reply is `InternalError`.
- The read-only endpoints and the top-5 cut are not modelled: `health_check`, `get_categories`, `get_items_by_category`, `get_item_details`, and the truncation to five results in `search_menu`. They are lookups with no decision logic.
- Loading `menu_data.json` at import time is not modelled. The catalog is a constructor parameter.
- `uuid.uuid4()` and `datetime.now()` are not modelled. They become parameters, and `createdAt` is an opaque string.
- `SequenceMatcher.ratio()` is not modelled. Its Ratcliff/Obershelp internals are library code, so it becomes the `similarity` parameter.
- Floating-point money and `round()` are not modelled. Amounts are exact integer cents.
- Concurrent access to the session store under a threaded server is not modelled. Operations are sequential.
- `process_menu_data` and `create_sample_output` are not modelled: CSV reading, `glob`, file writes and printing.
- `json.loads` is the `decode` parameter, and `pd.isna` is folded into the cell being an `Option`, with `None` for a missing or NaN cell. Exceptions other than the decoding error, such as a missing key in a decoded record, are not modelled: decoded records always have their fields.
- Python truthiness is modelled only for the types used. The `required` flag is an optional bool, so a truthy non-bool value such as `1` is not modelled. Item and session ids are strings, and a `null` one is a missing one. The quantity and the item index are integers when given; a non-list `modifier_ids` or a non-number `quantity` other than `null` is not modelled.
- Case mapping, `str.title()` and `\d` are ASCII only. Unicode letters and digits are not modelled.
- `Path(filename).stem` is modelled on a bare file name, which is what the converter passes. Directory parts are not modelled.
- test_api.py is a client of a live server. Only its order flow is mirrored, by `OrderLedger.BreakfastOrderScenario` on a two-item catalog. Its searches for "Pancakes" and "Omelet" are not replayed: the scenario uses the item ids such searches return.
