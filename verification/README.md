# ProductService reconciliation pipeline, in Dafny

This project models the product search of the health-functional-food backend
(`ProductService`). A search asks the public-data API for products matching a
keyword. Each item of a non-empty answer is normalized into a `ProductDto`,
saved to the local product table (insert when new, full overwrite when known,
skipped when its identifier is 0) and returned in upstream order. A failed or
empty answer returns the table's own keyword search instead. `getProductById`
reads one row or reports that it is missing.

Modules, one per component:

- `Wrappers`: `Option` (a Java reference that may be null) and `Result` (a call that may throw).
- `Records`: the `ProductDto` and `Product` shapes (ten fields each) and `convertToDto` / `convertToEntity`.
- `Identifier`: how the identifier comes from the registration number. Non-digits are dropped and the digits are read as a signed 64-bit long. When that fails, the fallback is `Math.abs((name.hashCode() + millis) % 1000000000L)`, written out with Java's 32-bit `String.hashCode`, 64-bit addition and truncating remainder.
- `Normalizer`: `parseProductFromJson` on one item, an item being a map from field name to its text.
- `Store`: the table as a map from identifier to row, `saveProductToDb`'s effect on it (`Upsert`) and the effect of a whole batch (`SaveAll`).
- `Service`: the upstream outcome (`Exchange`), the reference behaviour of a search (`Search`), and the class `ProductService`. The class holds the table (`rows`) and the mapper's keyword search, with the methods `SearchProducts`, `SearchProductsFromDb`, `SaveProductToDb` and `GetProductById`. `SearchProducts` keeps the source's loop and is proved equal to `Search`.

Behaviour of the code that the lemmas pin down:

- Every parsed record is returned, in upstream order, including one whose identifier is 0 (the loop at ProductService.java:72-78). `saveProductToDb` skips such a record (lines 189-192), so it is returned but not stored (`ZeroIdReturnedNotStored`, `ZeroIdsNotStored`).
- The fallback identifier is taken when the registration number has no digits, and also when its digits overflow a long (the `NumberFormatException` at line 139). The fallback can be zero: for every name some clock reading gives 0 (`FallbackCanBeZero`), and such a record is then returned but not stored.
- Repeating a search against the same answer leaves the table as it was when every item's registration number parses (`SearchStoreIdempotent`). An item that takes the fallback is stored again under a second identifier when the two searches' clock readings give it different non-zero fallback identifiers (`FallbackItemReinserted`). A fallback of 0 is not stored at all.

## Model

| member | source | states |
|---|---|---|
| `Records.ConvertToDto` | src/main/java/com/suppleit/backend/service/ProductService.java:213-227 | the record copies every one of the ten fields of the row, identifier included |
| `Records.ConvertToEntity` | src/main/java/com/suppleit/backend/service/ProductService.java:229-243 | the row keeps the record's identifier, and converting it back with convertToDto gives the same record, all ten fields |
| `Records.EntityRoundTrip` | src/main/java/com/suppleit/backend/service/ProductService.java:213-243 | convertToEntity(convertToDto(p)) == p for every stored row |
| `Records.ConvertToEntityInjective` | src/main/java/com/suppleit/backend/service/ProductService.java:229-243 | two records that give the same row are equal |
| `Identifier.Digits` | src/main/java/com/suppleit/backend/service/ProductService.java:138 | the filtered registration number is no longer than the original and holds only 0-9 |
| `Identifier.DigitsConcat` | src/main/java/com/suppleit/backend/service/ProductService.java:138 | filtering a concatenation is concatenating the filtered parts, so digits keep their order |
| `Identifier.DigitsOfDigitString` | src/main/java/com/suppleit/backend/service/ProductService.java:138 | a string of digits passes the filter unchanged |
| `Identifier.DigitsIdempotent` | src/main/java/com/suppleit/backend/service/ProductService.java:138 | filtering twice equals filtering once |
| `Identifier.ParseLong` | src/main/java/com/suppleit/backend/service/ProductService.java:138-139 | Long.parseLong of the digits fails exactly when there are none or their value exceeds Long.MAX_VALUE; otherwise it is that value, in [0, Long.MAX_VALUE] |
| `Identifier.NonDigitIgnored` | src/main/java/com/suppleit/backend/service/ProductService.java:138 | a non-digit character anywhere is removed without trace |
| `Identifier.DecimalAppend` | src/main/java/com/suppleit/backend/service/ProductService.java:138 | appending a digit multiplies the parsed value by ten and adds the digit |
| `Identifier.JavaHashCode` | src/main/java/com/suppleit/backend/service/ProductService.java:141 | the name's hash code is a 32-bit int |
| `Identifier.TruncatedRem` | src/main/java/com/suppleit/backend/service/ProductService.java:141 | Java's `%` keeps the dividend's sign, stays strictly inside (-m, m), and with the truncating quotient q satisfies q * m + r == x |
| `Identifier.FallbackId` | src/main/java/com/suppleit/backend/service/ProductService.java:139-142 | the fallback identifier lies in [0, 10^9) whatever the name and the clock |
| `Identifier.DeriveId` | src/main/java/com/suppleit/backend/service/ProductService.java:135-142 | with at least one digit and a value up to Long.MAX_VALUE the identifier is that value; otherwise it is a fallback in [0, 10^9); it is always in [0, Long.MAX_VALUE] |
| `Identifier.DeriveIdIgnoresNonDigit` | src/main/java/com/suppleit/backend/service/ProductService.java:138 | inserting a non-digit character into the registration number leaves the identifier unchanged |
| `Identifier.DecimalLeadingZero` | src/main/java/com/suppleit/backend/service/ProductService.java:138 | a leading zero does not change the parsed value |
| `Identifier.DeriveIdIgnoresLeadingZero` | src/main/java/com/suppleit/backend/service/ProductService.java:138 | once the registration number has a digit, prefixing "0" keeps the identifier |
| `Identifier.DecimalBound` | src/main/java/com/suppleit/backend/service/ProductService.java:138 | n digits parse to a value below 10^n |
| `Identifier.Pow10Monotone` | src/main/java/com/suppleit/backend/service/ProductService.java:138 | 10^m <= 10^n for m <= n, used to rule out overflow |
| `Identifier.ShortRegistrationParses` | src/main/java/com/suppleit/backend/service/ProductService.java:136-142 | a registration number with 1 to 18 digits never takes the fallback; its identifier is the digits' value |
| `Identifier.DecimalRoundTrip` | src/main/java/com/suppleit/backend/service/ProductService.java:138 | parsing the decimal spelling of n gives n |
| `Identifier.FormattedRegistration` | src/main/java/com/suppleit/backend/service/ProductService.java:135-142 | a registration number spelling a long n between digit-free text gets identifier n |
| `Identifier.FallbackCanBeZero` | src/main/java/com/suppleit/backend/service/ProductService.java:141 | for every name some clock reading makes the fallback identifier 0 |
| `Normalizer.ParseProductFromJson` | src/main/java/com/suppleit/backend/service/ProductService.java:122-170 | the identifier is derived from the registration number; name, company and registration number are always set, to "" when missing; each of the five optional fields is set exactly when its key is present, to that key's text; the serving-use note stays unset |
| `Normalizer.ParseIgnoresUnknownKeys` | src/main/java/com/suppleit/backend/service/ProductService.java:130-164 | keys other than the eight read fields do not affect the record |
| `Normalizer.VitaminExample` | src/main/java/com/suppleit/backend/service/ProductService.java:130-164 | {"PRDLST_REPORT_NO":"2020123456","PRDLST_NM":"VitC","BSSH_NM":"AcmeCo"} gives id 2020123456, those three fields, optional fields unset |
| `Normalizer.ExampleDecimalValue` | src/main/java/com/suppleit/backend/service/ProductService.java:138 | "2020123456" parses to 2020123456 |
| `Normalizer.ZeroRegistrationExample` | src/main/java/com/suppleit/backend/service/ProductService.java:138 | the registration number "No. 0" gives identifier 0 |
| `Normalizer.EmptyRegistrationExample` | src/main/java/com/suppleit/backend/service/ProductService.java:130-142 | an empty registration number takes the fallback, below 10^9, and zero for some clock reading |
| `Store.Upsert` | src/main/java/com/suppleit/backend/service/ProductService.java:186-211 | identifier 0 leaves the table unchanged; otherwise the identifier maps to convertToEntity(record), by insert or by full overwrite, every other row is kept, the table grows by at most one row, and rows stay keyed by identifier |
| `Store.UpsertIdempotent` | src/main/java/com/suppleit/backend/service/ProductService.java:186-211 | saving the same record twice leaves the table as saving it once |
| `Store.SaveAll` | src/main/java/com/suppleit/backend/service/ProductService.java:72-78 | saving a batch in order keeps every existing identifier and never creates, changes or removes the row under identifier 0 |
| `Store.SaveAllKeys` | src/main/java/com/suppleit/backend/service/ProductService.java:72-78 | after a batch the identifiers are exactly the old ones plus the non-zero identifiers of the batch |
| `Store.DropZeroIds` | src/main/java/com/suppleit/backend/service/ProductService.java:189-192 | the batch without its zero-identifier records: it holds exactly the batch's records whose identifier is non-zero, is no longer than the batch, and holds no identifier 0 |
| `Store.ZeroIdsNotStored` | src/main/java/com/suppleit/backend/service/ProductService.java:189-192 | saving a batch gives the same table as saving it with every zero-identifier record removed |
| `Store.SaveAllSnoc` | src/main/java/com/suppleit/backend/service/ProductService.java:72-78 | saving one more record is an upsert of it into the table the batch left |
| `Store.LastWrite` | src/main/java/com/suppleit/backend/service/ProductService.java:72-78 | the record returned is the last one of the batch with the given non-zero identifier: it is in the batch and no later record has that identifier; none exists when no record has it |
| `Store.SaveAllAt` | src/main/java/com/suppleit/backend/service/ProductService.java:72-78 | after a batch, an identifier holds the last record written under it, or its old row when none was |
| `Store.SaveAllIdempotent` | src/main/java/com/suppleit/backend/service/ProductService.java:72-78 | saving a batch a second time leaves the table unchanged |
| `Store.SaveAllGrowth` | src/main/java/com/suppleit/backend/service/ProductService.java:195-207 | a batch removes no row, adds at most one row per record, and keeps rows keyed by identifier |
| `Store.LastWrittenIsStored` | src/main/java/com/suppleit/backend/service/ProductService.java:195-207 | a non-zero record not overwritten later in its batch is what the table holds afterwards, all fields as written |
| `Service.UpstreamItems` | src/main/java/com/suppleit/backend/service/ProductService.java:63-87 | the answer yields items exactly when it is a response with a 2xx status, a non-null body that parses, and a non-empty items array; the items are that array |
| `Service.ParseAll` | src/main/java/com/suppleit/backend/service/ProductService.java:72-78 | one record per item, in upstream order, item i parsed with clock reading i |
| `Service.FromDb` | src/main/java/com/suppleit/backend/service/ProductService.java:98-109 | [] when the mapper throws; otherwise one record per found row, in the mapper's order, each converting back to its row |
| `Service.Search` | src/main/java/com/suppleit/backend/service/ProductService.java:41-95 | with a non-empty answered item list, one record per item in order and the table after saving them in turn; in every other case the store's search and an untouched table |
| `Service.SearchFallsBack` | src/main/java/com/suppleit/backend/service/ProductService.java:80-93 | an exception, a non-2xx status, a null body, unreadable JSON, items missing, not an array or empty all return the store's search and leave the table; [] when that search throws too |
| `Service.ZeroIdReturnedNotStored` | src/main/java/com/suppleit/backend/service/ProductService.java:73-77 | for the one-item answer {"PRDLST_REPORT_NO":"No. 0"}, the returned list holds one record with identifier 0 and the table is unchanged |
| `Service.SearchStoreIdempotent` | src/main/java/com/suppleit/backend/service/ProductService.java:41-95 | when every item's registration number parses to a long, a second search against the same answer, with any two clocks, leaves the table the first search produced and returns the same records |
| `Service.FallbackItemReinserted` | src/main/java/com/suppleit/backend/service/ProductService.java:139-142 | for a one-item answer whose two fallback identifiers, at the first and the second clock reading, are non-zero and differ, the first search leaves the old identifiers plus the first one, and the second leaves the old identifiers plus both; the table changes whenever the second identifier was not already a row |
| `Service.NameOnlyIdentifier` | src/main/java/com/suppleit/backend/service/ProductService.java:141 | the item {"PRDLST_NM":"A"} gets identifier 65 at clock 0 and 66 at clock 1, an instance of the above |
| `Service.NameOnlyTexts` | src/main/java/com/suppleit/backend/service/ProductService.java:130-131 | the item {"PRDLST_NM":"A"} reads an empty registration number and the name "A" |
| `Service.HashOfA` | src/main/java/com/suppleit/backend/service/ProductService.java:141 | Java's hash code of "A" is 65 |
| `Service.SearchOneItem` | src/main/java/com/suppleit/backend/service/ProductService.java:72-78 | a one-item answer leaves the table as the upsert of that item parsed with the first clock reading |
| `Service.SearchKeepsStoreInvariant` | src/main/java/com/suppleit/backend/service/ProductService.java:41-95 | a search keeps rows keyed by identifier with none under 0, removes none and adds at most one per record |
| `Service.SearchThenLookup` | src/main/java/com/suppleit/backend/service/ProductService.java:112-119 | after a search, reading a returned non-zero identifier gives back that record, unless a later item shared the identifier |
| `Service.ProductService.constructor` | src/main/java/com/suppleit/backend/service/ProductService.java:30 | the service starts from a given table, keyed by identifier with no row under 0 |
| `Service.ProductService.GetProductById` | src/main/java/com/suppleit/backend/service/ProductService.java:112-119 | NotFound(id) exactly when no row has the identifier; otherwise the row as a record, carrying that identifier |
| `Service.ProductService.SearchProductsFromDb` | src/main/java/com/suppleit/backend/service/ProductService.java:98-109 | returns the mapper's search mapped through convertToDto, or [] when it throws |
| `Service.ProductService.SaveProductToDb` | src/main/java/com/suppleit/backend/service/ProductService.java:186-211 | the new table is Upsert of the old one, and the table invariant is kept |
| `Service.ProductService.SearchProducts` | src/main/java/com/suppleit/backend/service/ProductService.java:41-95 | the returned list and the new table are exactly what Search gives for the old table, and the table invariant is kept |

## Left out

- The URI building and the GET through RestTemplate (lines 47-61) are an input, `Exchange`: an exception or a response with a status and a possibly null body. RestTemplate's default handler throws on 4xx and 5xx, so those statuses reach the fallback through the exception branch. The model gives the same result for both routes.
- JSON reading by Jackson (lines 65-69) is part of that input: a body is unreadable or yields the `body.items` node as missing, not an array, or an array of items. An item is the map from each key it has to `asText("")` of its value. A non-object element has no keys.
- The matching rule of ProductMapper's keyword search is not part of this model. It is an uninterpreted function of the table and the keyword that may fail. `insertProduct` and `updateProduct` are modelled as writing the row under its identifier.
- GetProductById: a `productMapper.getProductById` call that throws (line 114), whose exception reaches the caller, is not modelled; the lookup fails only with `NotFound`.
- SaveProductToDb: a store write that throws (swallowed at line 208) is not modelled; every write succeeds.
- The catch at lines 165-167 is not modelled: no modelled input makes the field reads throw.
- `System.currentTimeMillis()` is the input `clock`, with one reading per item. `String.hashCode` is computed over Dafny characters (Unicode scalar values), so it differs from Java's UTF-16 code units only for characters outside the Basic Multilingual Plane.
- A null identifier (the boxed `Long`) is not modelled; identifiers are integers.
- The unused helpers `getTextFromNode` and `generateTempId` (lines 173-183), logging, the Spring annotations and the configured URL and key (lines 34-38).
- Concurrent searches are not modelled; the service is sequential.
