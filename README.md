# Product business rules and entity mapping, in Dafny

This project models the two utility classes of a small product-catalogue REST service:

- `ProductValidator`, the business rules checked before a product is created:
  - forbidden words in the name;
  - a price ceiling of 100000.00 and a stock ceiling of 10000;
  - price/category coherence (electronics, books, clothing);
  - a separate rule that checks stock against category (digital and perishable goods).
- `ProductMapper`, the conversions between the `Product` entity and its transfer objects:
  - the read view of one entity and of a list;
  - a new entity from a create request;
  - an in-place partial patch from an update request.

Failures are values: `ValidationResult` is `Ok`, `FieldErrors(map)` (field name to message)
or `Message(text)`. A Java reference that may be null is an `Option`. Prices are exact
rationals (`real`), because `BigDecimal.compareTo` compares values and ignores scale.
Stock is a 32-bit integer. `String.toLowerCase` is a parameter `lower` of every rule, so
each property holds for any lowering; `contains` is a substring predicate.

Files:

- `wrappers.dfy`: `Option`.
- `text.dfy`: `Contains`, proved equal to the index-based definition of a substring.
- `model.dfy`: the `Product` class and the DTO datatypes.
- `product_validator.dfy`: the validator and its properties.
- `product_mapper.dfy`: the mapper and its properties.

`validateForCreation` and `validatePriceCategoryCoherence` are methods that thread one error
map through the checks in source order. Each is proved equal to a declarative reference
(`CreationErrors`, `CoherenceMessage`): each key holds the message of the LAST check that
wrote it. `updateEntity` is a method that modifies a `Product` object. It is proved to leave
the value `Patch(old value, dto)`, and the patch properties are lemmas about `Patch`.

The two stock rules are not disjoint: the code checks them in order, so a category that is
both digital and perishable, with fewer than 1000 units, gets the digital message
(`StockRuleFirstMatchWins`).

## Model

| member | source | states |
|---|---|---|
| `Text.ContainsIff` | src/main/java/com/eafit/tutorial/util/ProductValidator.java:60 | the recursive substring test used for `contains` holds exactly when the word occurs at some index |
| `Text.ContainsInContext` | src/main/java/com/eafit/tutorial/util/ProductValidator.java:86 | containment survives text around it, so "ropa deportiva" matches the "ropa" rule |
| `ProductValidator.ContainsForbiddenWords` | src/main/java/com/eafit/tutorial/util/ProductValidator.java:55-65 | the early-exit scan of the word list returns true iff the name is non-null and its lowering contains a forbidden word; a null name gives false |
| `ProductValidator.HasForbiddenWordIff` | src/main/java/com/eafit/tutorial/util/ProductValidator.java:19 | the forbidden words are exactly "test", "prueba", "demo" and "temporal" |
| `ProductValidator.ValidatePriceCategoryCoherence` | src/main/java/com/eafit/tutorial/util/ProductValidator.java:70-91 | the map comes back unchanged when no rule fires (null price or category included); otherwise only "price" changes, and it holds the message of the last rule that fired |
| `ProductValidator.ValidateForCreation` | src/main/java/com/eafit/tutorial/util/ProductValidator.java:26-50 | the sequential accumulation equals the per-key reference: Ok if the map is empty, otherwise one failure carrying the whole map |
| `ProductValidator.CreationErrorsByKey` | src/main/java/com/eafit/tutorial/util/ProductValidator.java:30-45 | keys lie within {name, price, stock}; "name" is present iff a forbidden word occurs; "stock" iff stock > MaxStock; "price" iff a price message is left; each key holds its message |
| `ProductValidator.CreationOkIff` | src/main/java/com/eafit/tutorial/util/ProductValidator.java:47-49 | success iff none of the four checks fires; never a single-message failure; a failure's map is non-empty and holds every entry |
| `ProductValidator.NullNameIsAccepted` | src/main/java/com/eafit/tutorial/util/ProductValidator.java:56 | a null name never yields a "name" error |
| `ProductValidator.PriceCeilingIsStrict` | src/main/java/com/eafit/tutorial/util/ProductValidator.java:35-37 | price 100000.00 does not trigger the ceiling; any higher price writes "price"; with a null category, a price at or below the ceiling writes nothing |
| `ProductValidator.StockCeilingIsStrict` | src/main/java/com/eafit/tutorial/util/ProductValidator.java:40-42 | "stock" is present iff stock > 10000 |
| `ProductValidator.PriceLastWriteWins` | src/main/java/com/eafit/tutorial/util/ProductValidator.java:76-89 | the "price" message is clothing if that rule fires, else books, else electronics, else the ceiling |
| `ProductValidator.ClothingOverwritesCeiling` | src/main/java/com/eafit/tutorial/util/ProductValidator.java:35-89 | price 150000 in category "Ropa" fails, and "price" holds the clothing message |
| `ProductValidator.CoherenceIgnoresNull` | src/main/java/com/eafit/tutorial/util/ProductValidator.java:71 | a null price or category produces no coherence message |
| `ProductValidator.CreationIsCaseInsensitive` | src/main/java/com/eafit/tutorial/util/ProductValidator.java:58-73 | names and categories with equal lowerings get the same outcome |
| `ProductValidator.ExampleForbiddenName` | src/main/java/com/eafit/tutorial/util/ProductValidator.java:30-32 | a name lowering to "test product", price 50000, a category lowering to "electrónicos" and stock 5 fail with the name error alone |
| `ProductValidator.ExampleBookTooExpensive` | src/main/java/com/eafit/tutorial/util/ProductValidator.java:81-83 | a category lowering to "libros" at 250.00, with a name free of forbidden words and stock at most 10000, fails with the book message as the only entry |
| `ProductValidator.ExampleClothingTooCheap` | src/main/java/com/eafit/tutorial/util/ProductValidator.java:86-90 | a category lowering to "ropa" at 5.00, with a name free of forbidden words and stock at most 10000, fails with the clothing message as the only entry |
| `ProductValidator.ValidateStockForCategory` | src/main/java/com/eafit/tutorial/util/ProductValidator.java:96-110 | a null category or stock gives Ok; otherwise the digital rule is checked first, then the perishable rule, each giving its one message; a digital failure has stock below 1000 and a perishable failure stock above 100 |
| `ProductValidator.StockRuleIgnoresNull` | src/main/java/com/eafit/tutorial/util/ProductValidator.java:97 | a null category or stock is accepted |
| `ProductValidator.StockRuleCases` | src/main/java/com/eafit/tutorial/util/ProductValidator.java:96-110 | digital message iff digital and stock < 1000; perishable message iff the digital rule did not fire, the category is perishable and stock > 100; Ok otherwise |
| `ProductValidator.StockRuleFirstMatchWins` | src/main/java/com/eafit/tutorial/util/ProductValidator.java:102-109 | a category both digital and perishable, below 1000 units, gets the digital message |
| `ProductValidator.ExampleSoftwareStock` | src/main/java/com/eafit/tutorial/util/ProductValidator.java:102-104 | "Software" with 500 units fails with the digital message; with 1500 units it passes |
| `ProductValidator.ExampleFoodStock` | src/main/java/com/eafit/tutorial/util/ProductValidator.java:107-109 | "Comida" with 150 units fails with the perishable message; with 50 units it passes |
| `ProductMapper.ToDTO` | src/main/java/com/eafit/tutorial/util/ProductMapper.java:23-39 | null in gives null out; otherwise each of the nine fields equals the entity's |
| `ProductMapper.ToDTOIsFaithful` | src/main/java/com/eafit/tutorial/util/ProductMapper.java:28-38 | two entities have equal views iff they hold equal values: the view loses nothing |
| `ProductMapper.ToDTOList` | src/main/java/com/eafit/tutorial/util/ProductMapper.java:44-48 | same length as the input, and element i is the view of entity i |
| `ProductMapper.ToDTOListAppend` | src/main/java/com/eafit/tutorial/util/ProductMapper.java:44-48 | mapping a concatenation gives the concatenation of the mapped parts |
| `ProductMapper.ToEntity` | src/main/java/com/eafit/tutorial/util/ProductMapper.java:53-67 | null gives null; otherwise a fresh entity with the DTO's name, description, price, category and stock, active = true, and no id or timestamps |
| `ProductMapper.UpdateEntity` | src/main/java/com/eafit/tutorial/util/ProductMapper.java:72-92 | a null entity or DTO changes nothing; otherwise the entity's new value is `Patch(old value, dto)` |
| `ProductMapper.PatchFields` | src/main/java/com/eafit/tutorial/util/ProductMapper.java:77-91 | each patchable field takes the DTO value when present and keeps its old value otherwise |
| `ProductMapper.PatchKeepsUnpatchableFields` | src/main/java/com/eafit/tutorial/util/ProductMapper.java:72-92 | id, active and both timestamps are never changed |
| `ProductMapper.PatchOnlyWritesPresentFields` | src/main/java/com/eafit/tutorial/util/ProductMapper.java:77-91 | a field changes only when the DTO carries it, and a set field is never cleared |
| `ProductMapper.PatchEmptyIsIdentity` | src/main/java/com/eafit/tutorial/util/ProductMapper.java:77-91 | an all-null DTO leaves the value unchanged |
| `ProductMapper.PatchIdempotent` | src/main/java/com/eafit/tutorial/util/ProductMapper.java:77-91 | applying a DTO twice gives the same value as applying it once |
| `ProductMapper.PatchNameOnly` | src/main/java/com/eafit/tutorial/util/ProductMapper.java:77-79 | a DTO carrying only a name changes the name and nothing else |
| `ProductMapper.PatchPriceOnly` | src/main/java/com/eafit/tutorial/util/ProductMapper.java:83-85 | a DTO carrying only a price changes the price and nothing else |
| `ProductMapper.PatchTwice` | src/main/java/com/eafit/tutorial/util/ProductMapper.java:77-91 | two patches in a row equal one patch in which the second DTO's present fields win |

## Left out

- `OpenApiConfig.java` is documentation metadata with no decision logic. It is not modelled.
- Spring wiring, persistence, controllers and HTTP envelopes are not modelled.
- `String.toLowerCase` is a parameter. Its Unicode case tables are not modelled.
- The example lemmas take what `lower` returns on their inputs as hypotheses. For example,
  `ExampleForbiddenName` assumes a name whose lowering is "test product".
- `ValidationException` is not part of this model. The result datatype replaces it. A creation
  failure does not carry the exception's fixed header text.
- `validateForCreation` dereferences the price and the stock unconditionally, so a null
  value would throw. The model requires both to be present (`Checkable`) and does not model
  the crash.
- `validateForCreation` on a null request object would throw at its first dereference. The
  model's request parameter is never null, so that crash is not modelled either.
- `toDTOList` on a null list would throw. A Dafny sequence is never null.
- `Product.java` and the DTO classes are not part of this model. Their fields come from the
  mapper's getters and setters. `new Product()` is assumed to leave every field null.
  `LocalDateTime` is an opaque value that is only copied.
- Idempotence and the other patch properties are proved about `Patch`. Running
  `UpdateEntity` twice on one object is not proved separately; its postcondition ties each
  call to `Patch`.
