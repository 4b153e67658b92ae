# TSoft API client — a verified model of its core

This project models the logic of an ASP.NET client for the T-Soft e-commerce API, written in Dafny:

- **Decoder.** The lenient decoder turns whatever a T-Soft endpoint sends back into one `TSoftApiResponse<T>` envelope: a success flag, optional data and optional messages. It tries four readings in a fixed order.
- **Endpoint fallback.** Every public operation walks an ordered list of REST1 (form POST) and V3 (JSON GET/POST) endpoints. It stops at the first reply that operation accepts.
- **URL and form construction.** Base-URL trimming, the path join, the forced `token` form field and the escaped query string.
- **Category tree.** Built from a flat list; paths are written into it and it can be flattened into a dictionary.
- **Product variants.** The field-resolution chains and the colour/size groupings.
- **Warehouse ledger.** An in-memory ledger of warehouses and stock rows, with create, update, soft delete, add stock and transfer.
- **License store.** Validate, create, activate, extend and revoke, plus statistics, with the request gate in front of every page.
- **Orders page.** Paging, and the latch that switches order-detail lookups off after a failed probe.

Each source component is one Dafny module:

| module | file | models |
|---|---|---|
| `Wrappers` | wrappers.dfy | `Option`, `Outcome` (a value or a thrown exception), `Result` |
| `Text` | text.dfy | .NET string helpers: `IsNullOrEmpty`, `Trim`, `TrimStart`/`TrimEnd`, `ToLower` (ASCII), `int.TryParse`, `int.ToString`, `Split`/`Join` |
| `Json` | json.dfy | an abstract JSON tree, property lookup, and the flexible string converter |
| `UriEscape` | escape.dfy | `Uri.EscapeDataString`: UTF-8 percent-encoding, with its inverse |
| `ApiModels` | api_models.dfy | the envelope, products, variants and their derived views, categories, orders |
| `Decoder` | decoder.dfy | the envelope binding and the `ParseResponse` cascade |
| `Transport` | transport.dfy | configuration, URL join, form dictionaries, the query string, and the transport call |
| `Fallback` | fallback.dfy | the endpoint loop (`Probe`) and its specification `FirstAccepted` |
| `Operations` | operations.dfy | every public product, category, customer, order, lookup and variant operation |
| `Categories` | categories.dfy | `BuildTreeFromFlatList`, `BuildCategoryPaths`, `FlattenCategoryTree` |
| `VariantGroups` | variant_groups.dfy | `GetVariantsByColor`, `GetVariantsBySize` |
| `Warehouses` | warehouse.dfy | `WarehouseService` as a class over two lists and two counters |
| `Licenses` | license.dfy | `LicenseService` as a class over a list and a counter |
| `LicenseGate` | license_gate.dfy | the license middleware's decision |
| `OrdersPage` | orders_page.dfy | the orders controller's `Index` and `ResetApiFlag` over a one-bit latch |

**Parameters and abstractions.**
- The network, the JSON text parsers, "deserialize as T", decimal parsing, double formatting, the clock and the GUID are parameters of the operations that use them.
- Time is a tick count, as in `DateTime`.
- Mutable stores are classes whose methods state their whole new state. That state is a function of the old state, and the lemmas beside each class prove the store's invariants about those functions.
- The endpoint loop is a `while` loop proved against `FirstAccepted`: the first candidate whose reply is accepted decides the answer.

**Duplicate category codes.** When the flat category list has two categories with the same code (two without a code count as the same code ""), `ToDictionary` throws inside `GetCategoryTreeAsync`, and nothing catches it; the model returns `Throws` there.

## Model

| member | source | states |
|---|---|---|
| ApiModels.Failure | Services/TSoftApiService.cs:170-174 | a failure envelope: not successful, no data, and its first message text is the given text |
| ApiModels.FirstPresent | Models/TSoftApiResponse.cs:288-290 | a `??` chain yields the first present value, or the default when every link is absent |
| ApiModels.ColorFromPropertyOne | Models/TSoftApiResponse.cs:288-290 | with the five colour names absent, `Property1` supplies the colour |
| ApiModels.EmptyColorStopsChain | Models/TSoftApiResponse.cs:288-290 | an empty `Color` stops the chain: the colour is "" even when later fields are set |
| ApiModels.GetStockQuantity | Models/TSoftApiResponse.cs:302-306 | the first present of `Stock`, `StockQuantity`, `AvailableStock` is parsed as a 32-bit integer; a text that does not parse, or no text at all, gives 0 |
| ApiModels.StockQuantityOfDecimal | Models/TSoftApiResponse.cs:302-306 | a `Stock` holding the decimal text of a 32-bit integer yields that integer |
| ApiModels.IsActiveVariant | Models/TSoftApiResponse.cs:324-337 | no status means active; otherwise `IsActive` (or `IsAvailable` when `IsActive` is null), lower-cased and trimmed, is one of "1", "true", "yes", "active"; an empty `IsActive` hides a non-empty `IsAvailable` and makes the variant inactive |
| ApiModels.EmptyIsActiveHidesIsAvailable | Models/TSoftApiResponse.cs:328-331 | an empty `IsActive` is still taken over `IsAvailable = "1"`, so the variant is inactive |
| ApiModels.StatusWordReads | Models/TSoftApiResponse.cs:331-335 | an unpadded status reads as its lower-cased word |
| ApiModels.UpperCaseYesIsActive | Models/TSoftApiResponse.cs:331-335 | "YES" is active |
| ApiModels.ZeroIsInactive | Models/TSoftApiResponse.cs:331-335 | "0" is inactive |
| ApiModels.DisplayName | Models/TSoftApiResponse.cs:343-359 | "colour - size" in length when both exist, exactly the colour when only it exists and exactly the size when only it exists; otherwise the first of variant name, product name, variant code, product code, else "Varyant" |
| ApiModels.DisplayNameJoinsColorAndSize | Models/TSoftApiResponse.cs:350-351 | with both present the name is exactly colour, " - ", size |
| ApiModels.BlankVariantDisplaysDefault | Models/TSoftApiResponse.cs:357 | a variant with no fields displays as "Varyant" |
| ApiModels.Variants | Models/TSoftApiResponse.cs:133-143 | the variants are one of the three lists whole (never merged) or empty; a non-empty `SubProducts` wins, then `SubProductList`; a non-empty `ProductVariants` makes them non-empty |
| ApiModels.HasVariants | Models/TSoftApiResponse.cs:149 | `HasVariants` holds exactly when one of the three lists is non-empty |
| ApiModels.GetColor | Models/TSoftApiResponse.cs:288-290 | `Color` when present; otherwise the first present of the colour-like properties in their order; "" when none is present, and any non-empty colour is one of them |
| ApiModels.GetSize | Models/TSoftApiResponse.cs:295-297 | `Size` when present; otherwise the first present of the size-like properties in their order; "" when none is present, and any non-empty size is one of them |
| ApiModels.FirstMessageText | Controllers/OrdersMvcController.cs:49 | a text is found only as the first text of the first message item, and never without messages |
| Json.Property | Services/TSoftApiService.cs:214 | a property is absent exactly when no field has the name; otherwise it is the value of the last field with that name |
| Json.ReadFlexibleString | Services/TSoftApiService.cs:301-342 | a string reads as itself, `true`/`false` as "true"/"false", a `long` number as its decimal text and any other number as its invariant double text; absent exactly for null, arrays, objects and numbers neither `long` nor formattable as a double |
| Json.NumberReadsLikeItsString | Services/TSoftApiService.cs:303-310 | a `long` number reads as the same text as the string of its digits |
| Json.NumberTextParsesBack | Services/TSoftApiService.cs:307-310 | an `int` number's text parses back to the number |
| Json.FractionReadsLikeItsString | Services/TSoftApiService.cs:311-312 | a fraction whose formatting is its own lexeme reads like the string of that lexeme |
| Json.BooleanReadsLikeItsString | Services/TSoftApiService.cs:314-321 | `true`/`false` read like the strings "true"/"false" |
| Decoder.ReadTexts | Models/TSoftApiResponse.cs:17 | one entry per array item, each the flexible reading of the item |
| Decoder.DecodeTextList | Models/TSoftApiResponse.cs:17 | a text list throws exactly when the token is neither null nor an array |
| Decoder.DecodeItemFields | Models/TSoftApiResponse.cs:15-18 | a message item throws exactly when some `text` field (any case) throws; otherwise its text is what the last `text` field binds to, and none without such a field |
| Decoder.DecodeMessageItems | Models/TSoftApiResponse.cs:12 | the item list throws exactly when an item throws; otherwise it decodes every item, in order |
| Decoder.DecodeEnvelopeFields | Models/TSoftApiResponse.cs:8-13 | binding an envelope object throws exactly when one of its fields fails |
| Decoder.DecodeEnvelope | Services/TSoftApiService.cs:198 | the literal null gives null; a non-object throws; an object throws exactly when one of its fields fails |
| Decoder.EnvelopeSuccessIsLastFlag | Models/TSoftApiResponse.cs:10 | the success flag is true exactly when the last `success` field (any case) is `true` |
| Decoder.EnvelopeDataIsLastData | Models/TSoftApiResponse.cs:11 | the data is the decoding of the last `data` field, or absent without one |
| Decoder.FlagThenNullData | Models/TSoftApiResponse.cs:8-13 | `{"success": false, "data": null}` binds to an unsuccessful envelope without data |
| Decoder.Wrapped | Services/TSoftApiService.cs:196-208 | the wrapped reading is taken only with data present |
| Decoder.StrictSuccess | Services/TSoftApiService.cs:270-272 | a missing `success` gives the default; a present one reads only when it is a boolean (`GetBoolean` throws otherwise) |
| Decoder.DataArray | Services/TSoftApiService.cs:210-241 | the data-array reading carries data and no message |
| Decoder.Direct | Services/TSoftApiService.cs:243-255 | the direct reading is successful with data and no message |
| Decoder.DataObject | Services/TSoftApiService.cs:257-281 | the data-object reading carries data and no message |
| Decoder.Readings | Services/TSoftApiService.cs:196-281 | there are exactly four readings, in source order |
| Decoder.FirstReading | Services/TSoftApiService.cs:196-281 | the first reading present wins; none present gives none |
| Decoder.ParseResponse | Services/TSoftApiService.cs:166-291 | a blank body fails with "Empty response"; otherwise the first of the four readings that applies is returned, and a body none reads fails with "Failed to parse response. Length: n", n counted in UTF-16 units; without data the result is never successful |
| Decoder.WrappedEnvelopeWins | Services/TSoftApiService.cs:198-203 | an envelope that binds with data is returned as bound, even with `success` false |
| Decoder.ReadingWins | Services/TSoftApiService.cs:196-281 | reading k is the answer when it applies and no earlier one does |
| Decoder.DirectWins | Services/TSoftApiService.cs:245-250 | the direct reading is the answer when the first two do not apply |
| Decoder.NoDataNotWrapped | Services/TSoftApiService.cs:199 | a bound envelope without data is passed over |
| Decoder.NoArrayNoDataArray | Services/TSoftApiService.cs:214 | without an array `data` property the data-array reading does not apply |
| Decoder.ThrowingNotWrapped | Services/TSoftApiService.cs:196-208 | a binding that throws is passed over |
| Decoder.BadSuccessFallsThrough | Services/TSoftApiService.cs:226 | a non-boolean `success` makes both the data-array and the data-object reading fail |
| Decoder.NothingReads | Services/TSoftApiService.cs:283-290 | when no reading applies the answer is the parse failure |
| Decoder.NullDataEnvelopeReadsAsSuccess | Services/TSoftApiService.cs:196-250 | `{"success": false, "data": null}` whose whole body decodes as T comes back successful, through the direct reading |
| Decoder.DataArrayTakesFirstElement | Services/TSoftApiService.cs:214-233 | a `data` array that does not decode as T yields its first element, with success false when the flag is missing |
| Decoder.DataObjectDefaultsToSuccess | Services/TSoftApiService.cs:196-274 | `{"message": "m", "data": value}`, read the same by both parsers, for a `T` that does not bind from the whole object: the text `message` makes the envelope binding throw, and the non-array `data` comes back successful because `success` is missing |
| Decoder.StringSuccessFailsToParse | Services/TSoftApiService.cs:196-290 | a `"success": "true"` string defeats every reading, so the answer is the parse failure |
| UriEscape.Utf8 | Services/TSoftApiService.cs:100-101 | a character encodes to one to four bytes, the later ones continuation bytes |
| UriEscape.Escape | Services/TSoftApiService.cs:100-101 | escaped text holds only unreserved characters and `%` |
| UriEscape.UnescapeBytesOfEscape | Services/TSoftApiService.cs:100-101 | unescaping the escaped text gives back the UTF-8 bytes of the input |
| UriEscape.Utf8RoundTrip | Services/TSoftApiService.cs:100-101 | UTF-8 decoding inverts UTF-8 encoding |
| UriEscape.EscapeRoundTrip | Services/TSoftApiService.cs:100-101 | unescaping inverts escaping, for every string |
| UriEscape.EscapeUnreservedIsIdentity | Services/TSoftApiService.cs:100-101 | text of unreserved characters is left as it is |
| Text.TrimEndWhere | Services/TSoftApiService.cs:37 | the result is the longest prefix not ending in a trimmed character; everything cut was trimmable |
| Text.TrimStartWhere | Services/TSoftApiService.cs:410 | the result is the longest suffix not starting with a trimmed character; everything cut was trimmable |
| Text.AsciiLower | Models/TSoftApiResponse.cs:331 | lower-casing keeps the length and maps each character |
| Text.TrimUnpadded | Models/TSoftApiResponse.cs:331 | trimming text without surrounding white space changes nothing |
| Text.NatToDecimal | Services/TSoftApiService.cs:359 | decimal text is non-empty and all digits |
| Text.DecimalRoundTrip | Services/TSoftApiService.cs:359 | the digits of n read back as n |
| Text.SplitJoin | Services/TSoftApiService.cs:100 | splitting text joined with a separator none of the parts holds gives back the parts |
| Text.ParseInt32 | Models/TSoftApiResponse.cs:305 | a parsed value is a 32-bit integer; which texts parse is stated by the lemmas below |
| Text.ParseInt32Accepts | Models/TSoftApiResponse.cs:305 | white space, an optional sign, ASCII digits, white space and a run of NUL characters parse to the signed value exactly when it fits 32 bits |
| Text.ParseInt32OnlyIntegerText | Models/TSoftApiResponse.cs:305 | every text that parses has that shape, including the trailing NUL run, and its value is the signed digits |
| Text.TrailingNulIsAccepted | Models/TSoftApiResponse.cs:305 | `"12 \0"` parses to 12: a NUL run after the trailing white space is accepted |
| Text.Utf16Length | Services/TSoftApiService.cs:289 | between one and two units per character; one per character in the Basic Multilingual Plane, two outside it |
| Text.ParseInt32RoundTrip | Models/TSoftApiResponse.cs:305 | every 32-bit integer's text parses back to it |
| Transport.Configure | Services/TSoftApiService.cs:34-38 | fails with "T-Soft API Token is not configured" exactly when the token is missing; otherwise keeps the token, turns debug on only for "true", and gives the base URL (default when missing) with its trailing slashes removed |
| Transport.TrimmedSlashes | Services/TSoftApiService.cs:37 | the trimmed URL plus the slashes removed is the original URL |
| Transport.DefaultBaseUrlUsed | Services/TSoftApiService.cs:37 | without a base URL the default one is used |
| Transport.JoinUrl | Services/TSoftApiService.cs:50 | base, one slash, and the path without its leading slash |
| Transport.NoDoubleSlashAtJoin | Services/TSoftApiService.cs:50 | with a trimmed base the joined URL has exactly one slash at the seam |
| Transport.Rest1Form | Services/TSoftApiService.cs:51 | the form keeps its size when it has a `token` key and otherwise gains one `token` entry at the end |
| Transport.Rest1FormCarriesToken | Services/TSoftApiService.cs:51 | the sent form has distinct keys, `token` is the configured token whatever the caller sent, and every other key is unchanged |
| Transport.Get | Services/TSoftApiService.cs:418 | a lookup is absent exactly when the key is missing, and otherwise returns that key's value |
| Transport.Put | Services/TSoftApiService.cs:424 | assigning a present key keeps every key in place; a new key goes at the end; the key then maps to the value |
| Transport.GetAfterPut | Services/TSoftApiService.cs:424-428 | after assigning, the key reads the new value and every other key reads as before |
| Transport.PutKeepsUniqueKeys | Services/TSoftApiService.cs:424-428 | assigning keeps keys distinct |
| Transport.GetAfterPutAll | Services/TSoftApiService.cs:360 | after copying entries over a dictionary a key reads the last entry assigned to it, or its old value |
| Transport.GetPutAllAt | Services/TSoftApiService.cs:360 | with distinct entries each entry's key reads that entry's value |
| Transport.PutAllOfDistinct | Services/TSoftApiService.cs:381 | copying distinct entries keeps keys distinct, each entry wins, and keys not copied are unchanged |
| Transport.PutAllKeepsUniqueKeys | Services/TSoftApiService.cs:360 | copying entries keeps keys distinct |
| Transport.QueryPairs | Services/TSoftApiService.cs:100-101 | one `key=value` pair per entry, in order |
| Transport.EscapeHasNoDelimiter | Services/TSoftApiService.cs:100-101 | an escaped key or value holds neither `&` nor `=` |
| Transport.ParsePairOfQueryPair | Services/TSoftApiService.cs:100-101 | a pair splits back into its key and value |
| Transport.ParsePairsOfQueryPairs | Services/TSoftApiService.cs:98-103 | the pairs parse back into the entries |
| Transport.QueryStringRoundTrip | Services/TSoftApiService.cs:98-103 | the query string parses back into exactly the query dictionary, in order |
| Transport.Call | Services/TSoftApiService.cs:78-84 | a transport failure becomes (false, "", 0); otherwise the reply is the server's |
| Transport.QueryString | Services/TSoftApiService.cs:98-103 | empty exactly for no parameters; otherwise starts with `?` |
| Transport.Rest1 | Services/TSoftApiService.cs:43-57 | a form post to the joined URL; with distinct keys the form carries the configured token and every other field unchanged |
| Transport.V3Get | Services/TSoftApiService.cs:89-107 | a GET of the joined URL, followed by a query part that parses back into exactly the parameters |
| Transport.V3Post | Services/TSoftApiService.cs:125-140 | a JSON post of the body to the joined URL |
| Fallback.Accept | Services/TSoftApiService.cs:879-882 | the acceptance rules: any ok reply (parsed); an ok reply that parses successfully with data; an ok, non-empty reply with a non-empty data list; or an ok reply without parsing |
| Fallback.FirstAcceptedIsFirst | Services/TSoftApiService.cs:364-398 | none accepted exactly when every candidate is refused; otherwise the first accepted candidate decides |
| Fallback.FirstAcceptedAppend | Services/TSoftApiService.cs:364-391 | a later tier is consulted only when every earlier candidate was refused |
| Fallback.Requests | Services/TSoftApiService.cs:364-391 | the requests of the candidates, in order |
| Fallback.Probe | Services/TSoftApiService.cs:364-398 | the loop returns `FirstAccepted`; it sends the candidates' requests in order, stops right after the first accepted one, and tries all of them only when none is accepted |
| Fallback.ProbeOr | Services/TSoftApiService.cs:393-398 | the first accepted answer, or the operation's failure envelope |
| Operations.Rest1Tier | Services/TSoftApiService.cs:362-373 | one REST1 candidate per path, in order, all with the same form and rule |
| Operations.V3GetTier | Services/TSoftApiService.cs:383-392 | one V3 GET candidate per path, in order |
| Operations.V3PostTier | Services/TSoftApiService.cs:444-453 | one V3 POST candidate per path, in order |
| Operations.FirstOkReplyWins | Services/TSoftApiService.cs:364-398 | under the any-ok rule the first transport-ok reply is returned as parsed, whatever the parse says |
| Operations.FirstFoundWins | Services/TSoftApiService.cs:556-563 | under the found rule the first ok reply that parses successfully with data wins |
| Operations.FirstItemsWin | Services/TSoftApiService.cs:879-887 | under the items rule the first ok, non-empty reply with a non-empty list wins |
| Operations.GetProducts | Services/TSoftApiService.cs:352-399 | the first accepted product candidate, or "All product endpoints failed" |
| Operations.ProductsFirstOkReplyWins | Services/TSoftApiService.cs:362-398 | three REST1 then two V3 candidates, with the limit form and the page query; the first ok reply wins |
| Operations.ProductsQuerySearch | Services/TSoftApiService.cs:375-381 | the query's `search` is a filter's if given, else the search text when not blank; the form's `limit` is a filter's if given, else the limit |
| Operations.CategoryId | Services/TSoftApiService.cs:410 | the code without its leading `T`/`t` parsed as a 32-bit integer, or 1 when it does not parse |
| Operations.CategoryIdOfPrefixedCode | Services/TSoftApiService.cs:410 | "T" followed by an `int`'s digits gives that number |
| Operations.Vat | Services/TSoftApiService.cs:418 | throws exactly when a `Vat` extra field does not parse; otherwise its parsed value, and 18 without the field |
| Operations.ProductFieldsUnique | Services/TSoftApiService.cs:424-428 | the five product fields have distinct keys |
| Operations.AddProduct | Services/TSoftApiService.cs:401-460 | the outcome is the first accepted of three REST1 and three V3 POST candidates; it throws, sending nothing, exactly when the VAT does not parse |
| Operations.AddFormCarriesProduct | Services/TSoftApiService.cs:423-428 | the form has distinct keys and carries the code, name, category, price and stock |
| Operations.AddFormKeepsExtraFields | Services/TSoftApiService.cs:423-428 | every other extra field is sent unchanged |
| Operations.IntOrZero | Services/TSoftApiService.cs:474 | the stock text parsed as a 32-bit integer; 0 when missing or unparseable |
| Operations.AddProductFrom | Services/TSoftApiService.cs:465-478 | adding a product record adds its fields, with empty defaults and no extra fields |
| Operations.BulkAddIsAdd | Services/TSoftApiService.cs:490-498 | each bulk item is one add with category default "T1" and the selling price before the price |
| Operations.AddForBulk | Services/TSoftApiService.cs:490-498 | the loop's add is that envelope |
| Operations.TallyAccounts | Services/TSoftApiService.cs:500-507 | successes plus failures is the number of products, the counts match the lists, and there are no failures exactly when every add succeeded |
| Operations.BulkResults | Services/TSoftApiService.cs:488-502 | one add per product, in order |
| Operations.CreateProducts | Services/TSoftApiService.cs:483-509 | the envelope is successful exactly when nothing failed, and carries the tally of all results |
| Operations.GetAfterPutIfPresent | Services/TSoftApiService.cs:521-523 | an optional field is set only when non-empty, and other keys stay |
| Operations.UpdateFormOptionalFields | Services/TSoftApiService.cs:515-523 | the form carries the code, and name, price and stock exactly when they are non-empty |
| Operations.UpdateProduct | Services/TSoftApiService.cs:511-529 | an ok reply is parsed, otherwise "Update product failed" |
| Operations.DeleteProduct | Services/TSoftApiService.cs:531-541 | success is exactly the transport's ok, with no data or message |
| Operations.UpdateProductStock | Services/TSoftApiService.cs:576-588 | success is exactly the transport's ok for code and stock, with no data or message |
| Operations.GetProductByCode | Services/TSoftApiService.cs:543-574 | the first accepted candidate, or "Product not found: code" |
| Operations.ByCodeTiersDiffer | Services/TSoftApiService.cs:555-571 | REST1 replies must parse successfully with data; a V3 ok reply is returned as parsed |
| Operations.GetProductImages | Services/TSoftApiService.cs:682-690 | an ok reply is parsed; a failed call is a success with an empty list |
| Operations.GetCategories | Services/TSoftApiService.cs:592-614 | the first accepted category candidate, or "All category endpoints failed" |
| Operations.CategoriesFirstOkReplyWins | Services/TSoftApiService.cs:594-607 | six candidates; the first ok reply wins |
| Operations.WithPaths | Services/TSoftApiService.cs:622-624 | a successful parse with data gets its paths written; anything else is returned unchanged |
| Operations.GetCategoryTree | Services/TSoftApiService.cs:616-640 | an ok tree call is parsed with paths; otherwise a successful flat list is built into a tree (throwing on duplicate codes) and pathed; otherwise "Category tree failed" |
| Operations.GetCustomers | Services/TSoftApiService.cs:786-810 | the first accepted customer candidate, or "All customer endpoints failed" |
| Operations.CustomersFirstOkReplyWins | Services/TSoftApiService.cs:791-803 | three REST1 then two V3 candidates, all with the limit form; the first ok reply wins |
| Operations.GetOrders | Services/TSoftApiService.cs:812-836 | the first accepted order candidate, or "All order endpoints failed" |
| Operations.OrdersFirstOkReplyWins | Services/TSoftApiService.cs:817-829 | three REST1 then two V3 candidates, all with the limit form; the first ok reply wins |
| Operations.Order2Tier | Services/TSoftApiService.cs:864-871 | a path containing "/" followed by the key is sent with an empty form, any other path with the form |
| Operations.KeyedPathContainsKey | Services/TSoftApiService.cs:869 | a path ending in "/key" contains "/key" |
| Operations.NoNumberAfterSlash | Services/TSoftApiService.cs:869 | a path whose slashes are all followed by letters never contains "/" followed by a number |
| Operations.KeyedAndBare | Services/TSoftApiService.cs:857-869 | a keyed order2 path contains "/id", and its bare prefix does not |
| Operations.GetOrderDetailsByOrderId | Services/TSoftApiService.cs:843-952 | the first accepted candidate of twelve, or "Order details not found for OrderId: id" |
| Operations.OrderIdOrder2Forms | Services/TSoftApiService.cs:855-871 | the first two order2 requests go without a form and the bare two with the id form |
| Operations.OrderIdOrder2Keys | Services/TSoftApiService.cs:855-869 | the first two order2 paths contain "/id" and the bare two never do, for every id |
| Operations.OrderIdEmptyListPassedOver | Services/TSoftApiService.cs:879-882 | a reply whose list is empty is never accepted |
| Operations.OrderCodeFormDroppedAsWritten | Services/TSoftApiService.cs:977-979 | as written, the codes "order2" and "" send the bare order2 path without its form |
| Operations.OrderCodeOrder2Tier | Services/TSoftApiService.cs:969-979 | the keyed path without a form, the bare path with the code form |
| Operations.OrderCodeTiersAgree | Services/TSoftApiService.cs:977-979 | whenever the bare path does not contain "/code", the written tier is the intended one |
| Operations.GetOrderDetailsByOrderCode | Services/TSoftApiService.cs:957-1017 | the first accepted candidate of the corrected tiers (see Findings), or "Order details not found for OrderCode: code" |
| Operations.OrderCodeFirstItemsWin | Services/TSoftApiService.cs:975-1010 | four candidates, the bare order2 one with the code form as intended (see Findings); the first non-empty list wins |
| Operations.GetPaymentTypes | Services/TSoftApiService.cs:1019-1033 | the first accepted candidate, or "All payment type endpoints failed" |
| Operations.GetCargoCompanies | Services/TSoftApiService.cs:1035-1049 | the first accepted candidate, or "All cargo company endpoints failed" |
| Operations.GetOrderStatusList | Services/TSoftApiService.cs:1051-1065 | the first accepted candidate, or "All order status endpoints failed" |
| Operations.LookupFirstOkReplyWins | Services/TSoftApiService.cs:1021-1032 | all three refused gives the failure; otherwise the first ok reply is returned as parsed |
| Operations.GetCustomerById | Services/TSoftApiService.cs:1067-1088 | the first accepted candidate, or "All customer endpoints failed" |
| Operations.CustomerByIdFirstOkReplyWins | Services/TSoftApiService.cs:1069-1082 | three candidates with the id form; the first ok reply wins |
| Operations.CodesToTry | Services/TSoftApiService.cs:1102-1117 | the code first, then the code without leading T/t when that is non-empty and different |
| Operations.CodesOfPrefixedNumber | Services/TSoftApiService.cs:1102-1117 | "T2429" is tried as "T2429" then "2429" |
| Operations.CodeWithoutPrefixTriedOnce | Services/TSoftApiService.cs:1102-1117 | a code not starting with T/t is tried once |
| Operations.VariantFormCodes | Services/TSoftApiService.cs:1124-1130 | the form's `ProductId` is the code tried and its `ProductCode` the original code |
| Operations.VariantRest1Tiers | Services/TSoftApiService.cs:1119-1166 | four REST1 candidates per code tried, all requiring a successful parse with data |
| Operations.GetProductWithVariants | Services/TSoftApiService.cs:1095-1207 | the first accepted candidate, or "Product not found: code" |
| Operations.VariantCandidatesShape | Services/TSoftApiService.cs:1104-1185 | four candidates per code tried and then three V3 ones; the first is `/product/get` with the original code |
| Operations.RuleOfAppend | Services/TSoftApiService.cs:1151-1199 | joined tiers keep their common acceptance rule |
| Operations.VariantsFirstFoundWins | Services/TSoftApiService.cs:1150-1199 | the first reply that parses successfully with data wins, in every tier |
| Operations.UpdateVariantStock | Services/TSoftApiService.cs:1212-1251 | the first ok reply among three, or "Failed to update variant stock" |
| Operations.VariantStockSucceedsWhenAnyPostIsOk | Services/TSoftApiService.cs:1236-1250 | the answer is a bare success exactly when some post is ok, and the failure otherwise |
| Categories.CodeIndex | Services/TSoftApiService.cs:644 | the dictionary exists exactly when codes are distinct, and maps each code to its category |
| Categories.ParentOf | Services/TSoftApiService.cs:650-657 | the parent is the category with the parent code; there is none exactly when the code is empty or unknown |
| Categories.BuildTreeFromFlatList | Services/TSoftApiService.cs:642-665 | throws exactly on duplicate codes; otherwise the roots are the parentless categories in order, and each category's children are the later ones attached to it |
| Categories.RootsIn | Services/TSoftApiService.cs:650-653 | exactly the positions before the bound without a parent, in increasing order |
| Categories.AttachedIn | Services/TSoftApiService.cs:654-657 | exactly the positions in the range whose parent is the given one, in increasing order |
| Categories.OrphanIsRoot | Services/TSoftApiService.cs:659-662 | a category whose parent code is unknown becomes a root |
| Categories.ChildBeforeParentIsDropped | Services/TSoftApiService.cs:649 | a child listed before its parent ends up nowhere: its parent's children are reset afterwards |
| Categories.ChildAfterParentIsKept | Services/TSoftApiService.cs:654-657 | a child listed after its parent is under that parent only |
| Categories.SelfAttachedOnlyWhenOwnParent | Services/TSoftApiService.cs:649-657 | a category is among its own children only when it names itself as parent, and then it is nowhere else |
| Categories.Subtree | Services/TSoftApiService.cs:642-665 | the tree node keeps the category's code, name and parent |
| Categories.Subtrees | Services/TSoftApiService.cs:642-665 | one node per index, in order |
| Categories.Kids | Models/TSoftApiResponse.cs:394 | the children list, empty when null |
| Categories.PathsUnder | Services/TSoftApiService.cs:667-678 | writing paths keeps every category's fields and the shape of the tree |
| Categories.BuildCategoryPaths | Services/TSoftApiService.cs:667-678 | every top-level category gets its name, else its code, else "Unknown"; below a non-empty parent path it gets the parent path, " > " and its name, else code, else ""; children are written below the category's own path; only the paths change |
| Categories.PathsUnderAt | Services/TSoftApiService.cs:669-676 | the category at each position carries its own path, and its children are written below that path |
| Categories.PathOfNamed | Services/TSoftApiService.cs:671-673 | a named category's path is the ancestors' names and its own, joined by " > " |
| Categories.PathsUnderFollow | Services/TSoftApiService.cs:667-678 | below named ancestors every path joins the names from the top |
| Categories.PathsJoinAncestorNames | Services/TSoftApiService.cs:667-678 | in a fully named tree every path is the names from the root down, joined by " > " |
| Categories.EmptyNameRestartsPaths | Services/TSoftApiService.cs:671-676 | an empty name gives an empty path, so its children start a fresh path |
| Categories.FileAllAppend | Services/TSoftApiService.cs:774-782 | filing two lists one after the other files their concatenation |
| Categories.FiledIsLast | Services/TSoftApiService.cs:778 | a code is filed exactly when it was there or some node has it; it maps to the last such node |
| Categories.FlattenCategoryTree | Services/TSoftApiService.cs:774-782 | the dictionary becomes the old one with the tree's nodes filed in pre-order |
| VariantGroups.ColorKey | Services/TSoftApiService.cs:1262-1263 | the colour key is never empty: the colour, else "Varsayılan" |
| VariantGroups.SizeKey | Services/TSoftApiService.cs:1283-1284 | the size key is never empty: the size, else "Tek Beden" |
| VariantGroups.IndexOf | Services/TSoftApiService.cs:1264-1265 | finds the group with the key, or says no group has it |
| VariantGroups.GroupedIsPartition | Services/TSoftApiService.cs:1256-1293 | keys are distinct, every variant's key owns a group, and each group is exactly the variants with its key, in order |
| VariantGroups.JoinGroupKeeps | Services/TSoftApiService.cs:1264-1268 | appending to an existing group keeps the partition |
| VariantGroups.OpenGroupKeeps | Services/TSoftApiService.cs:1264-1268 | opening a group for a new key keeps the partition |
| VariantGroups.GroupedKeepsCount | Services/TSoftApiService.cs:1256-1293 | the group sizes add up to the number of variants |
| VariantGroups.GroupVariants | Services/TSoftApiService.cs:1260-1270 | the loop builds the grouping |
| VariantGroups.GetVariantsByColor | Services/TSoftApiService.cs:1256-1273 | the grouping of the product's variants by colour key |
| VariantGroups.GetVariantsBySize | Services/TSoftApiService.cs:1277-1293 | the grouping of the product's variants by size key |
| Warehouses.FreshWarehouse | Models/WarehouseModels.cs:5-9 | a new warehouse is active, with empty code, name and location |
| Warehouses.FindWarehouse | Services/WarehouseService.cs:52-55 | the first warehouse with the id, or none has it |
| Warehouses.FindStock | Services/WarehouseService.cs:109 | the first row of the warehouse and barcode, or none has them |
| Warehouses.StockAddedTotals | Services/WarehouseService.cs:109-133 | adding stock raises that barcode's total by the quantity and no other total |
| Warehouses.StockAddedKeepsInvariants | Services/WarehouseService.cs:109-133 | adding stock keeps one row per pair, rows naming warehouses, and ids below the counter |
| Warehouses.Debit | Services/WarehouseService.cs:159-160 | the source row loses the quantity; every row keeps its id, warehouse and barcode |
| Warehouses.DebitTotal | Services/WarehouseService.cs:159-160 | debiting lowers the row's barcode total by the quantity |
| Warehouses.TransferConserves | Services/WarehouseService.cs:159-180 | a transfer conserves every barcode's total, also from a warehouse to itself |
| Warehouses.TransferMovesQuantity | Services/WarehouseService.cs:159-180 | between two warehouses the source loses the quantity and the destination ends with its old quantity plus it |
| Warehouses.TransferKeepsInvariants | Services/WarehouseService.cs:152-180 | an allowed transfer keeps the ledger's invariants |
| Warehouses.WarehouseService.constructor | Services/WarehouseService.cs:13-45 | the service starts with the two default warehouses and no stock |
| Warehouses.WarehouseService.InitializeDefaultWarehouses | Services/WarehouseService.cs:19-45 | seeds DEPO-01 and DEPO-02 only when there are no warehouses |
| Warehouses.WarehouseService.GetAllWarehouses | Services/WarehouseService.cs:47-50 | exactly the active warehouses; it is `Active` of the list, whose order and multiplicity `ActiveAppend` and `ActiveSnoc` fix |
| Warehouses.WarehouseService.GetWarehouseById | Services/WarehouseService.cs:52-55 | found exactly when a warehouse has the id, active or not |
| Warehouses.WarehouseService.GetWarehouseStocks | Services/WarehouseService.cs:96-99 | exactly the rows of the warehouse; it is `RowsOf` the ledger, whose order and multiplicity `RowsOfAppend` and `RowsOfSnoc` fix |
| Warehouses.WarehouseService.CreateWarehouse | Services/WarehouseService.cs:57-65 | appends the warehouse with the next id, now and active; nothing else changes |
| Warehouses.WarehouseService.UpdateWarehouse | Services/WarehouseService.cs:67-81 | false and no change for an unknown id; otherwise only code, name and location change |
| Warehouses.WarehouseService.DeleteWarehouse | Services/WarehouseService.cs:83-94 | false and no change for an unknown id; otherwise the warehouse is kept, inactive |
| Warehouses.WarehouseService.AddStockByBarcode | Services/WarehouseService.cs:101-140 | "Depo bulunamadı" and no change for an unknown warehouse; otherwise the rows become `StockAdded`, the touched row is returned, and the message reports the new quantity or the new row |
| Warehouses.WarehouseService.TransferStock | Services/WarehouseService.cs:142-186 | "Depo bulunamadı" or "Yetersiz stok" and no change when not allowed; otherwise the rows become `Transferred` and the message reports the quantity |
| Warehouses.WarehouseService.Deposit | Services/WarehouseService.cs:162-180 | the credit half of a transfer is `StockAdded` |
| Warehouses.WarehouseService.GetProductStocksInAllWarehouses | Services/WarehouseService.cs:188-198 | one line per row of the barcode, with its quantity and its warehouse's name or "Bilinmeyen" |
| Warehouses.StockLinesNameTheirWarehouse | Services/WarehouseService.cs:194 | in a valid ledger "Bilinmeyen" never appears |
| Warehouses.Active | Services/WarehouseService.cs:49 | exactly the active warehouses |
| Warehouses.RowsOf | Services/WarehouseService.cs:98 | exactly the rows of the warehouse |
| Warehouses.RowsWithBarcode | Services/WarehouseService.cs:191 | exactly the rows of the barcode |
| Warehouses.ActiveAppend | Services/WarehouseService.cs:49 | the active filter splits over concatenation, so order and multiplicity are kept |
| Warehouses.ActiveSnoc | Services/WarehouseService.cs:49 | a warehouse added last appears last exactly when it is active |
| Warehouses.RowsOfAppend | Services/WarehouseService.cs:98 | the warehouse filter splits over concatenation |
| Warehouses.RowsOfSnoc | Services/WarehouseService.cs:98 | a row added last appears last exactly when it is the warehouse's |
| Warehouses.RowsWithBarcodeAppend | Services/WarehouseService.cs:191 | the barcode filter splits over concatenation |
| Warehouses.RowsWithBarcodeSnoc | Services/WarehouseService.cs:191 | a row added last appears last exactly when it has the barcode |
| Licenses.AddDays | Services/LicenseService.cs:268 | throws exactly when the result leaves the `DateTime` range; otherwise moves by whole days |
| Licenses.DaysBetween | Services/LicenseService.cs:98 | whole days truncated toward zero, in both directions |
| Licenses.DurationDays | Services/LicenseService.cs:163-171 | at least seven days |
| Licenses.FreshLicense | Models/LicenseModels.cs:8-22 | active, Monthly, five users, empty key, company and e-mail, no machine, check or notes |
| Licenses.NewCreateRequest | Models/LicenseModels.cs:64-71 | the required company and e-mail, Monthly, five users |
| Licenses.LicenseKey | Services/LicenseService.cs:52-64 | the prefix and four dash-led groups of four, twenty characters after the prefix |
| Licenses.LicenseKeyInjective | Services/LicenseService.cs:52-64 | equal keys come from GUIDs equal in their first sixteen digits |
| Licenses.LicenseKeyDigit | Services/LicenseService.cs:57-63 | each of the sixteen digits sits at its place in the key |
| Licenses.FindByKey | Services/LicenseService.cs:73 | the first license with the key, or none has it |
| Licenses.Verdict | Services/LicenseService.cs:73-131 | valid exactly for a live license; expired exactly when invalid; messages and license for unknown and revoked keys; an active license is returned checked now |
| Licenses.VerdictDays | Services/LicenseService.cs:96-131 | a valid answer reports the whole days left; an invalid one none; the warning exactly when one to seven whole days are left |
| Licenses.Where | Services/LicenseService.cs:151 | exactly the licenses the filter keeps |
| Licenses.Count | Services/LicenseService.cs:315-319 | the number the filter keeps |
| Licenses.Insert | Services/LicenseService.cs:152 | insertion keeps the list sorted and adds exactly the element |
| Licenses.SortBy | Services/LicenseService.cs:152 | sorted and a permutation of the input |
| Licenses.SameElements | Services/LicenseService.cs:152 | permutations hold the same licenses |
| Licenses.SortedHeadIsLeast | Services/LicenseService.cs:152-153 | the head of a sorted list is an element with the least key |
| Licenses.ByType | Services/LicenseService.cs:320-322 | each type present maps to its positive count, and every license's type is present |
| Licenses.ByTypeAddsUp | Services/LicenseService.cs:320-322 | the per-type counts add up to the number of licenses |
| Licenses.AbsentTypeCountsNothing | Services/LicenseService.cs:320-322 | a type missing from the dictionary has no licenses |
| Licenses.TypeCountsPartition | Services/LicenseService.cs:320-322 | the five type counts add up to the number of licenses |
| Licenses.LicenseService.constructor | Services/LicenseService.cs:17-47 | the service starts with the seven-day trial license |
| Licenses.LicenseService.InitializeDefaultLicense | Services/LicenseService.cs:26-47 | seeds the trial only on an empty list, taking an id even when the expiry throws |
| Licenses.LicenseService.ValidateLicense | Services/LicenseService.cs:69-143 | the answer is `Verdict` of the first license with the key, and an active license alone is checked now, expired or not |
| Licenses.LicenseService.GetActiveLicense | Services/LicenseService.cs:148-154 | some license exactly when one is live; it is live and no live license expires later |
| Licenses.LicenseService.CreateLicense | Services/LicenseService.cs:159-201 | takes an id; succeeds exactly when the expiry is in range and then appends the created license, whose id no earlier license has |
| Licenses.LicenseService.ActivateLicense | Services/LicenseService.cs:206-251 | fails, with no change, for an unknown key, an expired license, or one bound elsewhere; otherwise the license becomes `Activated` |
| Licenses.LicenseService.ExtendLicense | Services/LicenseService.cs:256-282 | fails for an unknown key or an expiry out of range, changing nothing; otherwise only the expiry moves |
| Licenses.LicenseService.RevokeLicense | Services/LicenseService.cs:287-295 | false and no change for an unknown key; otherwise the license is kept, inactive |
| Licenses.LicenseService.GetAllLicenses | Services/LicenseService.cs:300-303 | all licenses, newest first |
| Licenses.LicenseService.GetExpiringSoonLicenses | Services/LicenseService.cs:329-338 | throws exactly when the threshold is out of range; otherwise exactly the live licenses expiring by it, soonest first |
| Licenses.CreatedRunsItsDuration | Services/LicenseService.cs:163-184 | a created license runs exactly its type's duration and is live until then, with a TSOFT key |
| Licenses.ActivationBinds | Services/LicenseService.cs:223-238 | activation re-enables, binds an unbound license to the asking machine, keeps the expiry, and can be repeated from the same machine |
| Licenses.Statistics | Services/LicenseService.cs:308-324 | the total is the number of licenses; no licenses give all counts 0 and no types |
| Licenses.StatisticsSnoc | Services/LicenseService.cs:312-321 | one more license raises the total by one, active exactly when it is active and unexpired, expired exactly when it expires at or before now whatever its flag, expiring-soon exactly when it is live and expires within seven days |
| Licenses.LicenseService.GetStatistics | Services/LicenseService.cs:308-324 | the statistics of the current list at now |
| Licenses.StatisticsAddUp | Services/LicenseService.cs:308-324 | active and expired are at most the total, expiring-soon ones are among the active ones, and the per-type counts add up to the total |
| Licenses.CountsNest | Services/LicenseService.cs:315-319 | live and expired licenses are disjoint; expiring-soon ones are live |
| Licenses.ActiveLicenseValidates | Services/LicenseService.cs:148-154 | with distinct keys the active license is found by its key and validates |
| LicenseGate.ExclusionIsPrefixTest | Middleware/LicenseValidationMiddleware.cs:41 | "/cssx" and "/licensefoo" skip the check |
| LicenseGate.ExclusionIgnoresCase | Middleware/LicenseValidationMiddleware.cs:38-41 | "/LOGIN" skips the check |
| LicenseGate.ExcludedBy | Middleware/LicenseValidationMiddleware.cs:38-41 | a path whose lower-cased start spells an excluded name skips the check |
| LicenseGate.OrdinaryPathsAreChecked | Middleware/LicenseValidationMiddleware.cs:14-26 | "/products", "/" and "" are checked |
| LicenseGate.NotExcluded | Middleware/LicenseValidationMiddleware.cs:14-26 | lower-case paths whose second character starts no excluded name are checked |
| LicenseGate.Excluded | Middleware/LicenseValidationMiddleware.cs:41 | an excluded path starts with `/` and has at least three characters |
| LicenseGate.ExclusionIsCaseBlind | Middleware/LicenseValidationMiddleware.cs:38-41 | a path and its lower case are excluded alike |
| LicenseGate.IsApiRequest | Middleware/LicenseValidationMiddleware.cs:91 | exactly the paths whose first segment is `/api` in any case, alone or followed by `/` |
| LicenseGate.BlockWith | Middleware/LicenseValidationMiddleware.cs:88-106 | a 403 with the message exactly under `/api`, else a redirect to the license page with the escaped message |
| LicenseGate.RedirectCarriesMessage | Middleware/LicenseValidationMiddleware.cs:105 | the redirect's query value unescapes to the message |
| LicenseGate.Invoke | Middleware/LicenseValidationMiddleware.cs:36-86 | excluded paths bypass, changing nothing; no live license blocks; an invalid one blocks with its message; a valid one is admitted with its days and, when soon expiring, the warning; validation stamps the found active license's last check with now, and nothing else changes; when the next handler throws, an excluded path lets the exception escape and an admitted request is answered with the "Lisans doğrulama hatası oluştu." block |
| LicenseGate.GateAdmitsLive | Middleware/LicenseValidationMiddleware.cs:50-79 | with distinct keys the license the gate picks always validates |
| OrdersPage.Wrap32 | Controllers/OrdersMvcController.cs:37 | 32-bit wrap-around: in range, congruent, and the identity on 32-bit values |
| OrdersPage.OffsetCountsEarlierPages | Controllers/OrdersMvcController.cs:37 | within range the offset is the number of orders on earlier pages |
| OrdersPage.FarPageOffsetWraps | Controllers/OrdersMvcController.cs:37 | page 2^30 of four orders asks for offset -4 |
| OrdersPage.PagingFilters | Controllers/OrdersMvcController.cs:34-39 | the three filters have distinct keys |
| OrdersPage.PagingFiltersSent | Controllers/OrdersMvcController.cs:34-41 | the list call sends the limit, page, offset and start |
| OrdersPage.ProbeId | Controllers/OrdersMvcController.cs:74-75 | a probe id is the parsed id of the first order |
| OrdersPage.DetailsLatch.constructor | Controllers/OrdersMvcController.cs:13 | the latch starts enabled |
| OrdersPage.DetailsLatch.ResetApiFlag | Controllers/OrdersMvcController.cs:181-187 | reset always enables the latch |
| OrdersPage.DetailsLatch.Index | Controllers/OrdersMvcController.cs:28-171 | a failed list shows the error and no orders; the latch falls exactly on a failed probe, with a warning; a fallen latch warns; more pages exactly when the page is full |
| OrdersPage.LatchFallsOnlyOnFailedProbe | Controllers/OrdersMvcController.cs:70-84 | a failing probe needs a first order with an `int` id whose detail lookup found nothing or an unsuccessful answer |
| OrdersPage.NumericFirstOrderIsProbed | Controllers/OrdersMvcController.cs:74-77 | a first order whose id is an `int`'s text probes that id |

## Left out

- The HTTP exchange is a parameter, `send`: request in, optional reply out, where none stands for an exception. Headers, `FormUrlEncodedContent`, the camelCase JSON body of V3 posts, cancellation and logging are not modelled.
- JSON text is read through two parameters: the serializer's lenient parser, which allows comments and trailing commas, and `JsonDocument`'s strict one. "Deserialize as T" is a third parameter. Only the envelope binding and the flexible string converter are modelled on the JSON tree.
- Double formatting in the converter's number branch is the parameter `formatDouble`. Decimal parsing of prices (`decimal.TryParse`) is the parameter `parseDecimal`. `ProductVariant.GetPrice` (Models/TSoftApiResponse.cs:311-318) is not modelled, because it is only decimal parsing.
- `GetBulkProductImagesAsync` (Services/TSoftApiService.cs:692-719) is concurrent (a semaphore and a lock) and is not modelled.
- `GetEnhancedProductsAsync` (Services/TSoftApiService.cs:721-772) is not modelled. Its only modelled piece is `FlattenCategoryTree`.
- Operations.AddProduct: the C# method writes the product fields into the caller's own `extraFields` dictionary. The model sends a new dictionary and does not capture that aliasing.
- Categories.BuildTreeFromFlatList: categories are positions in the flat list, and the tree is the roots with each position's children. The `Children` lists the input categories carried before the call are not modelled; the method replaces them all.
- Operations.GetProductWithVariants: a null product code, where `codesToTry` would hold a null, is not modelled.
- The order fan-out in `Index` is not modelled (Controllers/OrdersMvcController.cs:85-158). That includes its concurrent detail calls, the warning at lines 150-153 and the in-place copy of detail fields into the orders.
- OrdersPage.DetailsLatch.Index: its catch branch (lines 173-178) is not modelled, because nothing modelled inside it throws.
- Licenses.LicenseService.ValidateLicense: the catch branch (Services/LicenseService.cs:133-142) cannot be reached in the model, because nothing inside throws.
- LicenseGate.Invoke: the next handler is reduced to whether it throws, `nextThrows`. Whether it had already started the response when it threw, which would make the catch's own answer fail, is not modelled.
- Licenses.DurationDays: the `_ => 30` arm for an enum value outside the five cases is not modelled; `LicenseType` has exactly five cases.
- Licenses.DaysBetween: this is exact integer division of ticks. `TotalDays` is a double, which may round up within a tick of a day boundary.
- Licenses.LicenseService.GetStatistics: the source compares `TotalDays <= 7` on a double; the model compares ticks exactly.
- Each method reads the clock once, as its `now` parameter. The source may read `DateTime.UtcNow` twice, for example in `GetActiveLicense`'s filter.
- The services' lists and counters are `static`, so they are shared by every instance. So is the order-details latch `_detailsApiWorking` (Controllers/OrdersMvcController.cs:13), which survives across requests and controller instances. The model has one instance of each, which holds the state; one `OrdersPage.DetailsLatch` object stands for the static flag.
- Records are returned by reference in C#, so a caller can change the stored record; for example, the middleware's `Items["License"]` sees the `LastChecked` that validation writes. The model returns values.
- Warehouses.WarehouseService.AddStockByBarcode: quantities are unbounded integers. The 32-bit `Quantity += quantity` can wrap around in C#.
- Warehouses.WarehouseService.TransferStock: the same 32-bit wrap-around of the quantities is not modelled.
- The id counters `_nextId` (Services/LicenseService.cs:14) and `_nextWarehouseId` and `_nextStockId` (Services/WarehouseService.cs:10-11) are 32-bit `int`s that wrap after 2^31 creations. The model's counters are unbounded, so ids never repeat.
- Culture: `ToLower()` and the middleware's `StartsWith` are culture-sensitive in .NET, for example the Turkish dotless i. The model uses ASCII lower-casing and ordinal prefixes, and `StartsWithSegments` compares ASCII case-insensitively. The serializer's `PropertyNameCaseInsensitive` matching is `OrdinalIgnoreCase`, which also folds non-ASCII letters through their invariant upper case, so a property named "meſſage" (U+017F) binds Message in .NET; the model's ASCII comparison does not bind it.
- LicenseGate.BlockWith: the 403 answer's JSON body and content type are not modelled; the decision carries its message.
- `GenerateMachineId` (SHA-256 over the environment) is not modelled. The GUID behind a license key is the parameter `guidHex`. Dates formatted as dd/MM/yyyy in messages come from the parameter `formatDate`.
- Licenses.LicenseService.constructor: it requires a `now` at least seven days before the end of the `DateTime` range, where the source would throw.
- Licenses.LicenseService.GetActiveLicense and GetExpiringSoonLicenses: among licenses with the same expiry, which one comes first (LINQ's stable order) is not stated.
- Operations.GetOrderDetailsByOrderCode: follows the corrected order2 tier `OrderCodeOrder2Tier`; for the codes the finding names ("order2", "", and any code that "/order2/getOrderDetailsByOrderCode" contains after a slash) it posts the bare path with the code form, where the source posts it with an empty form (`OrderCodeOrder2TierAsWritten`).
- Operations.OrderCodeFirstItemsWin: states the candidates of the corrected tier, so for the same codes its bare order2 candidate carries the code form, which the source's does not.
- Licenses.LicenseService.GetAllLicenses: among licenses created at the same instant, the order (LINQ's `OrderByDescending` keeps the list order) is not stated; the result is a permutation sorted newest first.
- Strings are sequences of Unicode scalar values. Lone UTF-16 surrogates, which `Uri.EscapeDataString` rejects, cannot occur.
- Controllers/ProductsMvcController.cs, Controllers/WarehouseMvcController.cs, Controllers/LicenseMvcController.cs and Controllers/OrderDebugController.cs are not part of this model: they are page rendering and routing.

## Findings

| source | as written | input that shows it | evidently intended | confidence | as-written member | corrected member |
|---|---|---|---|---|---|---|
| Services/TSoftApiService.cs:977-979 | `GetOrderDetailsByOrderCodeAsync` sends an order2 endpoint without the code form whenever the endpoint contains "/" followed by the code; the fixed endpoint `/order2/getOrderDetailsByOrderCode` also contains it for some codes | order code "order2" (or the empty code): the bare endpoint is posted with an empty form, so the lookup cannot name the order | only the endpoint that carries the code in its path goes without the form | not executed | Operations.OrderCodeFormDroppedAsWritten | Operations.OrderCodeTiersAgree |
