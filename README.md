# A verified model of the refactoring engine and its shop fixtures

This project models two parts of the repository in Dafny and proves properties of the model.

**The RalphLoop controller** (`engine/app/Services/RalphLoop.php`) refactors a PHP file or directory in two stages:

- one deterministic Rector pass;
- then up to ten rounds of PHPStan analysis (level 9) and Pest tests.

Each round records an audit entry. A round with no PHPStan errors and no Pest failures reaches the "gold standard" and ends the run successfully. Otherwise, outside dry-run mode, the controller builds a repair prompt, asks the AI model for corrected code, extracts the code from the reply and writes it back to the target.

The model represents the file system as a map from paths to contents plus a set of directory paths. Every external process is an input:

- Rector's exit code and rewrites;
- the decoded PHPStan report of each round;
- the Pest run of each round, as its success flag and the matches of the failure pattern;
- the AI reply to each prompt.

`execute` is a method on a `RalphLoop` class whose loop is proved equal to a recursive function, `Run`. The audit trail, the verdict, the dry-run guarantees and the file frame are lemmas about that function. The pure steps have their own modules:

- reading and writing the target;
- the report normalisation (`RalphReports`);
- the prompt (`RalphPrompt`);
- fix extraction (`RalphFix`).

**The shop fixtures** under `test-files/` are modelled as follows:

- the order, product and VAT enums of both shops;
- the v2 order-request validator;
- the cart, cart item, order, product and address value objects;
- the CSRF token manager, as a class whose field is the session;
- the first shop's request validator, user record and JSON response.

Two shared modules support them:

- `PhpValues` models PHP's loose values (`null`, booleans, 64-bit integers, floats by their source text, strings and ordered arrays). It also gives the conversions the code applies to them: `isset`/`??`, `is_numeric`, the `(int)` and `(string)` casts, and `filter_var` with `FILTER_VALIDATE_INT` and `FILTER_VALIDATE_FLOAT`.
- `PhpStrings` models `trim`, `strtoupper`, `explode`/`implode`, `bin2hex`/`hex2bin` and decimal rendering.

A Dafny `string` stands for a PHP byte string, one `char` per byte; no text encoding is modelled.

Where the source loops, the model is a method with loop invariants proved against a specification function. Examples are `fromLegacyMandje`, both validators, `validateCart`, `execute`, `readTarget`, the report parsers and the prompt builder.

The path order that `glob` sorts with is byte-wise string comparison (`PathOrder`). PHP arrays are ordered association lists (`OrderedMaps`).

The model follows the code wherever its behaviour is surprising. For example, a failing Pest run whose output matches the `FAILED … at file:line` pattern nowhere gives no failures (RalphLoop.php:518-555). An iteration with such a run and a clean PHPStan report therefore counts as gold (`RalphLoopProperties.UnmatchedPestFailureIsGold`).

## Model

| member | source | states |
|---|---|---|
| OrderStatusEnum.TryFrom | test-files/modern-v2/src/Domain/Order/Enums/OrderStatus.php:7-15 | the case returned is the one backed by the string; no case is backed by a string that gives None |
| OrderStatusEnum.TryFromValue | test-files/modern-v2/src/Domain/Order/Enums/OrderStatus.php:9-15 | every case is recovered from its own backing string |
| OrderStatusEnum.ValuesDistinct | test-files/modern-v2/src/Domain/Order/Enums/OrderStatus.php:9-15 | two cases have the same backing string exactly when they are the same case |
| OrderStatusEnum.ModifiableStatuses | test-files/modern-v2/src/Domain/Order/Enums/OrderStatus.php:17-23 | an order may be edited exactly while pending or confirmed |
| OrderStatusEnum.DeletableIsModifiable | test-files/modern-v2/src/Domain/Order/Enums/OrderStatus.php:25-28 | only a pending order may be deleted, and every deletable order is also modifiable |
| OrderStatusEnum.TransitionTable | test-files/modern-v2/src/Domain/Order/Enums/OrderStatus.php:30-40 | canTransitionTo allows exactly the seven moves pending→confirmed, pending→cancelled, confirmed→paid, confirmed→cancelled, paid→processing, processing→shipped, shipped→delivered |
| OrderStatusEnum.FinalStatuses | test-files/modern-v2/src/Domain/Order/Enums/OrderStatus.php:38 | delivered and cancelled orders cannot move anywhere |
| OrderStatusEnum.CancelSources | test-files/modern-v2/src/Domain/Order/Enums/OrderStatus.php:33-34 | an order can be cancelled only while pending or confirmed |
| OrderStatusEnum.TransitionMovesForward | test-files/modern-v2/src/Domain/Order/Enums/OrderStatus.php:30-40 | every allowed move goes to a case declared later |
| OrderStatusEnum.LifecycleOrdinals | test-files/modern-v2/src/Domain/Order/Enums/OrderStatus.php:30-40 | along any chain of allowed moves the declaration position grows by at least one per move |
| OrderStatusEnum.NoCycles | test-files/modern-v2/src/Domain/Order/Enums/OrderStatus.php:30-40 | no chain of allowed moves returns to the status it started from |
| OrderStatusEnum.LifecycleBound | test-files/modern-v2/src/Domain/Order/Enums/OrderStatus.php:30-40 | a chain of allowed moves passes through at most seven statuses |
| OrderActionEnum.FromRequest | test-files/modern-v2/src/Domain/Order/Enums/OrderAction.php:13-20 | the action is save exactly for "save" and delete exactly for "delete"; anything else, null included, is a view |
| OrderActionEnum.GuardsAgree | test-files/modern-v2/src/Domain/Order/Enums/OrderAction.php:22-30 | an action needs a login exactly when it needs a CSRF token, and that is exactly when it is not a view |
| OrderActionEnum.FromRequestValue | test-files/modern-v2/src/Domain/Order/Enums/OrderAction.php:9-20 | reading an action back from its own backing string gives that action |
| OrderActionEnum.UnknownActionIsView | test-files/modern-v2/src/Domain/Order/Enums/OrderAction.php:15-19 | an unrecognised or missing action is a view and needs neither guard |
| ProductStatusEnum.FromLegacyFlag | test-files/modern-v2/src/Domain/Catalog/Enums/ProductStatus.php:22-28 | a legacy flag always gives active or inactive |
| ProductStatusEnum.AvailableIsActive | test-files/modern-v2/src/Domain/Catalog/Enums/ProductStatus.php:14-17 | a product is available exactly when it is active |
| ProductStatusEnum.ActiveFlags | test-files/modern-v2/src/Domain/Catalog/Enums/ProductStatus.php:22-28 | a flag is active exactly when it is J, j, Y, y or 1; N and the empty flag are inactive |
| ProductStatusEnum.AvailableFromFlag | test-files/modern-v2/src/Domain/Catalog/Enums/ProductStatus.php:14-28 | a product read from a flag is available exactly when the upper-cased flag is J, Y or 1 |
| VatCategoryEnum.ValuesDistinct | test-files/modern-v2/src/Domain/Catalog/Enums/VatCategory.php:14-18 | the three backing strings are pairwise distinct |
| VatCategoryEnum.Percentage | test-files/modern-v2/src/Domain/Catalog/Enums/VatCategory.php:28-31 | the percentage is at most 100 |
| VatCategoryEnum.PercentageOrder | test-files/modern-v2/src/Domain/Catalog/Enums/VatCategory.php:19-31 | high is above low is above zero, which is 0, so the percentage identifies the category |
| VatCategoryEnum.LegacyTypeArgument | test-files/modern-v2/src/Domain/Catalog/Enums/VatCategory.php:37 | a value is accepted as the int\|string argument exactly when it is an integer or a string |
| VatCategoryEnum.LegacyTypeCases | test-files/modern-v2/src/Domain/Catalog/Enums/VatCategory.php:37-48 | exactly 1 and "1" give the high rate, exactly 2 and "laag" the low rate, and every other code gives zero |
| VatCategoryEnum.StrictComparison | test-files/modern-v2/src/Domain/Catalog/Enums/VatCategory.php:39-47 | because the comparison is strict, "2", 0 and "hoog" all give zero |
| ModernVatRateEnum.ValuesDistinct | test-files/modern/src/Domain/Order/Enums/VatRate.php:10-14 | the three backing strings are pairwise distinct |
| ModernVatRateEnum.ProductTypeCases | test-files/modern/src/Domain/Order/Enums/VatRate.php:31-38 | type 1 gives exactly the high rate, type 2 exactly the low rate, and every other integer zero |
| ModernOrderStatusEnum.From | test-files/modern/src/Domain/Order/Enums/OrderStatus.php:10-17 | the case returned is the one backed by the string; no case is backed by a string that gives None |
| ModernOrderStatusEnum.FromValue | test-files/modern/src/Domain/Order/Enums/OrderStatus.php:12-17 | every case is recovered from its own backing string |
| ModernOrderStatusEnum.ModifiableStatuses | test-files/modern/src/Domain/Order/Enums/OrderStatus.php:22-28 | an order may be edited exactly while pending or confirmed, and not while processing, shipped, delivered or cancelled |
| CartItemDto.WithQuantity | test-files/modern-v2/src/Domain/Cart/DTOs/CartItemDTO.php:53-62 | the copy has quantity q when q is at least 1 and 1 otherwise, and every other field unchanged |
| CartItemDto.WithQuantityIdempotent | test-files/modern-v2/src/Domain/Cart/DTOs/CartItemDTO.php:53-62 | setting the same quantity twice is the same as setting it once |
| CartItemDto.WithQuantityOverrides | test-files/modern-v2/src/Domain/Cart/DTOs/CartItemDTO.php:53-62 | only the last quantity set matters |
| CartItemDto.WithOwnQuantity | test-files/modern-v2/src/Domain/Cart/DTOs/CartItemDTO.php:53-62 | setting an item's own valid quantity gives the item back |
| CartItemDto.FromLegacyArray | test-files/modern-v2/src/Domain/Cart/DTOs/CartItemDTO.php:27-36 | the conversion fails exactly when the type code is neither an integer nor a string; a built item has quantity at least 1 |
| CartItemDto.FromLegacyArrayKeys | test-files/modern-v2/src/Domain/Cart/DTOs/CartItemDTO.php:30-34 | id wins over product_id, naam over name, prijs over price and soort over type, each English key is used when the Dutch one is unset, and an id or name missing under both keys is 0 or '' |
| CartItemDto.FromLegacyArrayUntyped | test-files/modern-v2/src/Domain/Cart/DTOs/CartItemDTO.php:34 | an item with a type code under neither soort nor type always converts, at the zero VAT rate |
| CartItemDto.FromLegacyArrayQuantity | test-files/modern-v2/src/Domain/Cart/DTOs/CartItemDTO.php:33 | the quantity is aantal, else quantity, else 1: a chosen value of at least 1 is kept, one below 1 becomes 1, and a quantity missing under both keys is 1 |
| CartDto.EmptyCart | test-files/modern-v2/src/Domain/Cart/DTOs/CartDTO.php:55-71 | the empty cart is empty with count 0 and total quantity 0, and a cart is empty exactly when its count is 0 |
| CartDto.SumQuantitiesAppend | test-files/modern-v2/src/Domain/Cart/DTOs/CartDTO.php:65-71 | the total quantity of two lists of items together is the sum of their totals |
| CartDto.TotalQuantityAtLeastCount | test-files/modern-v2/src/Domain/Cart/DTOs/CartDTO.php:60-71 | when every quantity is at least 1, the total quantity is at least the item count |
| CartDto.ItemFromProduct | test-files/modern-v2/src/Domain/Cart/DTOs/CartDTO.php:42-49 | building the item throws exactly when the soort code is neither integer nor string; a built item has the given id and quantity |
| CartDto.EntryOutcome | test-files/modern-v2/src/Domain/Cart/DTOs/CartDTO.php:31-49 | an entry with (int) quantity at most 0, or whose (int) id is not among the products, is skipped; an added item has that quantity, at least 1, and that id |
| CartDto.Outcomes | test-files/modern-v2/src/Domain/Cart/DTOs/CartDTO.php:31 | one outcome per mandje entry, in order |
| CartDto.CollectOrder | test-files/modern-v2/src/Domain/Cart/DTOs/CartDTO.php:29-52 | the items collected are exactly the added items of the outcomes, in increasing entry order, and every other entry was skipped |
| CartDto.CollectFailure | test-files/modern-v2/src/Domain/Cart/DTOs/CartDTO.php:48 | building the cart throws exactly when some entry's item throws |
| CartDto.MandjeCartItems | test-files/modern-v2/src/Domain/Cart/DTOs/CartDTO.php:27-53 | the cart's items follow the mandje's order, at most one per entry, each with its entry's quantity (at least 1) and a known product id; every unused entry had quantity at most 0 or an unknown product |
| CartDto.MandjeCartCounts | test-files/modern-v2/src/Domain/Cart/DTOs/CartDTO.php:27-71 | a built cart has at most one item per entry and a total quantity at least its item count |
| CartDto.ItemDefaults | test-files/modern-v2/src/Domain/Cart/DTOs/CartDTO.php:45-48 | a product row without naam, prijs and soort gives an item named '', priced 0.0, at the zero rate |
| CartDto.CollectFailureStays | test-files/modern-v2/src/Domain/Cart/DTOs/CartDTO.php:48 | once an entry has thrown, the later entries do not change the outcome |
| CartDto.HandleEntry | test-files/modern-v2/src/Domain/Cart/DTOs/CartDTO.php:32-49 | the loop body's decision for one entry is EntryOutcome |
| CartDto.FromLegacyMandje | test-files/modern-v2/src/Domain/Cart/DTOs/CartDTO.php:27-53 | the loop builds exactly MandjeCart, so every property proved of MandjeCart holds of its result |
| ProductDto.OptionalText | test-files/modern-v2/src/Domain/Catalog/DTOs/ProductDTO.php:40-41 | an optional text field is present exactly when the row's field is set |
| ProductDto.FromDatabaseRow | test-files/modern-v2/src/Domain/Catalog/DTOs/ProductDTO.php:31-43 | reading a row fails exactly when the type code is neither integer nor string; the status is the one fromLegacyFlag gives for the (string) active flag, 'N' by default |
| ProductDto.AvailableMeansActiveInStock | test-files/modern-v2/src/Domain/Catalog/DTOs/ProductDTO.php:45-53 | a product is available exactly when it is active and not low on stock for threshold 1; without stock it never is |
| ProductDto.DefaultLowStock | test-files/modern-v2/src/Domain/Catalog/DTOs/ProductDTO.php:45-48 | under the default threshold 5, low stock means at most four in stock |
| ProductDto.FromDatabaseRowDefaults | test-files/modern-v2/src/Domain/Catalog/DTOs/ProductDTO.php:33-42 | in any row, a field missing under all its keys takes its fallback: id 0, name '', price 0.0, stock 0, inactive, no description, no sku; with no type code the row always reads, at the zero rate |
| ProductDto.DutchKeysFirst | test-files/modern-v2/src/Domain/Catalog/DTOs/ProductDTO.php:34-41 | naam, prijs, voorraad, soort and actief win over name, price, stock, type and active, the English key is used when the Dutch one is unset, and a set id, description or sku is read as given |
| ProductDto.MissingFlagUnavailable | test-files/modern-v2/src/Domain/Catalog/DTOs/ProductDTO.php:39-53 | a row without an active flag gives an inactive product, never available |
| OrderDto.Create | test-files/modern-v2/src/Domain/Order/DTOs/OrderDTO.php:29-50 | a new order has no id, is pending, keeps the customer and cart, is created at the clock reading and has not been updated |
| OrderDto.RowStatus | test-files/modern-v2/src/Domain/Order/DTOs/OrderDTO.php:63 | the stored status is the case backed by the (string) status field, or pending when there is none |
| OrderDto.FromDatabaseRow | test-files/modern-v2/src/Domain/Order/DTOs/OrderDTO.php:57-73 | a read order has an id, the given cart, the row's status and the customer id from klant_id, else customer_id, else 0; a missing created_at is the current clock reading, a set one is kept as its text, and updated_at is present exactly when the row's is set |
| OrderDto.RowStatusFallback | test-files/modern-v2/src/Domain/Order/DTOs/OrderDTO.php:63 | a missing or unknown status reads as pending and a known one is kept |
| OrderDto.CustomerIdPrecedence | test-files/modern-v2/src/Domain/Order/DTOs/OrderDTO.php:61 | klant_id wins over customer_id, and a row with neither belongs to customer 0 |
| OrderDto.WithStatus | test-files/modern-v2/src/Domain/Order/DTOs/OrderDTO.php:75-89 | the copy has the new status and is updated at the clock reading; every other field is unchanged |
| OrderDto.PaidStatuses | test-files/modern-v2/src/Domain/Order/DTOs/OrderDTO.php:91-99 | an order is paid exactly when it is paid, processing, shipped or delivered |
| OrderDto.PaidAndModifiable | test-files/modern-v2/src/Domain/Order/DTOs/OrderDTO.php:43-99 | a new order is not paid and can be modified, and a paid order cannot be modified |
| OrderDto.TransitionsKeepPayment | test-files/modern-v2/src/Domain/Order/DTOs/OrderDTO.php:75-99 | an allowed move never takes a paid order out of the paid statuses, and only confirmed→paid enters them |
| AddressDto.MatchStreetIsLeftmost | test-files/modern-v2/src/Domain/Customer/DTOs/AddressDTO.php:25 | the street match found is a match of `^(.+?)\s+(\d+\S*)$`, and every match has the same house number and a street at least as long, so it is the one the lazy group gives |
| AddressDto.StreetOfParts | test-files/modern-v2/src/Domain/Customer/DTOs/AddressDTO.php:25 | a street, white space and a word starting with a digit match as exactly that street and house number |
| AddressDto.MatchPostal | test-files/modern-v2/src/Domain/Customer/DTOs/AddressDTO.php:30 | a postal match is four digits, optional white space and two capitals at the start of the text, followed by a one-line rest |
| AddressDto.PostalOfParts | test-files/modern-v2/src/Domain/Customer/DTOs/AddressDTO.php:30 | a postal code, white space and a one-line rest not starting with white space match as exactly that code and rest |
| AddressDto.PostalAlone | test-files/modern-v2/src/Domain/Customer/DTOs/AddressDTO.php:30 | a postal code on its own matches with an empty city |
| AddressDto.NoSpaceNoNumber | test-files/modern-v2/src/Domain/Customer/DTOs/AddressDTO.php:25-27 | a street part without white space does not match, so it keeps no house number |
| AddressDto.FromString | test-files/modern-v2/src/Domain/Customer/DTOs/AddressDTO.php:17-40 | a parsed address is in NL, its house number is empty or starts with a digit, and its postal code is empty or four digits and two capitals |
| AddressDto.NoCommaNoCity | test-files/modern-v2/src/Domain/Customer/DTOs/AddressDTO.php:20-32 | an address without a comma has an empty postal code and city |
| AddressDto.Format | test-files/modern-v2/src/Domain/Customer/DTOs/AddressDTO.php:42-51 | the formatted address is the four fields with one space, a comma and a space, and a space between them |
| AddressDto.ExplodeFormat | test-files/modern-v2/src/Domain/Customer/DTOs/AddressDTO.php:20-50 | explode splits a formatted well-formed address into the street part and the city part |
| AddressDto.StreetPartParses | test-files/modern-v2/src/Domain/Customer/DTOs/AddressDTO.php:21-27 | the trimmed street part of a formatted address reads back into its street and house number |
| AddressDto.CityPartParses | test-files/modern-v2/src/Domain/Customer/DTOs/AddressDTO.php:22-32 | the trimmed city part of a formatted well-formed address reads back into its postal code and city |
| AddressDto.FromStringFormat | test-files/modern-v2/src/Domain/Customer/DTOs/AddressDTO.php:17-51 | parsing the formatted form of a well-formed address gives the address back |
| AddressDto.ExampleWellFormed | test-files/modern-v2/src/Domain/Customer/DTOs/AddressDTO.php:19 | the documented example address is well formed, so the round trip applies to it |
| AddressDto.DocumentedExample | test-files/modern-v2/src/Domain/Customer/DTOs/AddressDTO.php:19-40 | "Kerkstraat 12a, 1234AB Amsterdam" reads as Kerkstraat, 12a, 1234AB, Amsterdam, NL |
| CsrfTokens.TokensDistinct | test-files/modern-v2/src/Http/Security/CsrfTokenManager.php:25 | different random bytes give different tokens, because bin2hex is undone by hex2bin |
| CsrfTokens.CsrfTokenManager.constructor | test-files/modern-v2/src/Http/Security/CsrfTokenManager.php:18 | the manager works on the given session array |
| CsrfTokens.CsrfTokenManager.ValidateToken | test-files/modern-v2/src/Http/Security/CsrfTokenManager.php:40-53 | validation succeeds exactly when a non-empty token was posted and the session holds that same string; it throws exactly when the stored value is set, non-empty and not a string |
| CsrfTokens.CsrfTokenManager.ValidNeverFails | test-files/modern-v2/src/Http/Security/CsrfTokenManager.php:40-53 | with a session holding no token or a generated one, validation never throws, and a missing or empty token is always refused |
| CsrfTokens.CsrfTokenManager.GenerateToken | test-files/modern-v2/src/Http/Security/CsrfTokenManager.php:20-29 | the token is the 64 lower-case hex digits of the 32 random bytes, it is stored under _csrf_token and nothing else changes, it validates, and no other token does |
| CsrfTokens.CsrfTokenManager.GetToken | test-files/modern-v2/src/Http/Security/CsrfTokenManager.php:31-38 | a stored token is returned (string)-converted with the session unchanged; otherwise a new one is generated and stored; from a well-formed session the token returned validates |
| CsrfTokens.GetTokenTwice | test-files/modern-v2/src/Http/Security/CsrfTokenManager.php:31-38 | a second getToken returns the same token as the first, and leaves an already-set session unchanged |
| OrderRequestValidation.CartEntry | test-files/modern-v2/src/Http/Validation/OrderRequestValidator.php:106-119 | an entry is kept exactly when FILTER_VALIDATE_INT accepts both its id and its quantity and both are positive; a kept entry has a positive id and a quantity in 1..999 |
| OrderRequestValidation.IntegerEntry | test-files/modern-v2/src/Http/Validation/OrderRequestValidator.php:107-119 | an integer id and quantity are kept exactly when both are positive, with the quantity capped at 999 |
| OrderRequestValidation.CartWrites | test-files/modern-v2/src/Http/Validation/OrderRequestValidator.php:106 | one write per cart entry, in order |
| OrderRequestValidation.ApplyWritesBounds | test-files/modern-v2/src/Http/Validation/OrderRequestValidator.php:104-122 | writes of positive ids and bounded quantities build an array without repeated keys whose entries keep those bounds |
| OrderRequestValidation.ApplyWritesLookup | test-files/modern-v2/src/Http/Validation/OrderRequestValidator.php:119 | looking a product up in the built array gives the quantity of the last write for it |
| OrderRequestValidation.LastWriteFound | test-files/modern-v2/src/Http/Validation/OrderRequestValidator.php:119 | there is a last write for a product exactly when some write is for it |
| OrderRequestValidation.ValidatedCartBounds | test-files/modern-v2/src/Http/Validation/OrderRequestValidator.php:102-123 | every kept product has a positive id and a quantity in 1..999, and no product appears twice |
| OrderRequestValidation.ValidatedCartLookup | test-files/modern-v2/src/Http/Validation/OrderRequestValidator.php:102-123 | a product is in the validated cart exactly when some entry for it is valid, and it holds the capped quantity of the last such entry |
| OrderRequestValidation.CheckCartEntry | test-files/modern-v2/src/Http/Validation/OrderRequestValidator.php:107-119 | the loop body's decision for one entry is CartEntry |
| OrderRequestValidation.ValidateCart | test-files/modern-v2/src/Http/Validation/OrderRequestValidator.php:102-123 | the loop returns exactly ValidatedCart, the entries' writes performed in input order |
| OrderRequestValidation.CustomerIdError | test-files/modern-v2/src/Http/Validation/OrderRequestValidator.php:35-39 | no customer_id error is recorded only when customer_id is present and its (int) value is positive |
| OrderRequestValidation.OverflowingCustomerIdRejected | test-files/modern-v2/src/Http/Validation/OrderRequestValidator.php:35-39 | a customer_id of "1e309", numeric but cast to 0, is reported as an invalid customer ID |
| OrderRequestValidation.CheckCustomerId | test-files/modern-v2/src/Http/Validation/OrderRequestValidator.php:32-39 | the customer_id check records exactly the error CustomerIdError names, if any |
| OrderRequestValidation.ValidateCreateOrderRequest | test-files/modern-v2/src/Http/Validation/OrderRequestValidator.php:30-60 | the request is accepted exactly when neither customer_id nor cart has an error; a rejection carries the customer_id error then the cart error, and is never empty; an accepted request gives the (int) customer id, which is positive, and the validated cart, which is non-empty and without repeated products |
| OrderRequestValidation.ValidateDeleteOrderRequest | test-files/modern-v2/src/Http/Validation/OrderRequestValidator.php:69-94 | the request is accepted exactly when neither order_id nor customer_id has an error; a rejection carries the order_id error then the customer_id error, and is never empty; an accepted request gives the (int) order id, which is positive, and the (int) customer id |
| OrderRequestValidation.OrderIdPrecedence | test-files/modern-v2/src/Http/Validation/OrderRequestValidator.php:73-91 | order_id wins over oid, and a missing order_id falls back to oid |
| OrderRequestValidation.DeleteChecksCustomerPresenceOnly | test-files/modern-v2/src/Http/Validation/OrderRequestValidator.php:82-92 | a delete request accepts a non-numeric customer_id such as "abc", which then reads as 0 |
| ModernRequestValidation.IdErrors | test-files/modern/src/Http/Validation/RequestValidator.php:78-80 | no id error exactly when FILTER_VALIDATE_INT gives an id of at least 1; otherwise the one error items.<index>.id |
| ModernRequestValidation.PriceErrors | test-files/modern/src/Http/Validation/RequestValidator.php:82-84 | no price error exactly when FILTER_VALIDATE_FLOAT gives a price of at least 0; otherwise the one error items.<index>.price |
| ModernRequestValidation.CheckItem | test-files/modern/src/Http/Validation/RequestValidator.php:55-93 | checking one item records at most two errors |
| ModernRequestValidation.CheckItemSkips | test-files/modern/src/Http/Validation/RequestValidator.php:58-72 | a non-array item records one error under its index and keeps nothing; an item with quantity below 1 is skipped without an error |
| ModernRequestValidation.CheckItemKeeps | test-files/modern/src/Http/Validation/RequestValidator.php:66-93 | an item is kept exactly when it is an array with quantity at least 1 whose id, price and type all parse, whatever their range, and it is kept with those values |
| ModernRequestValidation.CheckItemErrors | test-files/modern/src/Http/Validation/RequestValidator.php:74-84 | a counted item records an id error exactly when its id is not an integer of at least 1, a price error exactly when its price is not a number of at least 0, and none exactly when both are in range |
| ModernRequestValidation.Outcomes | test-files/modern/src/Http/Validation/RequestValidator.php:55 | one outcome per posted item, in order |
| ModernRequestValidation.ValidateCreateOrder | test-files/modern/src/Http/Validation/RequestValidator.php:21-105 | the loop yields exactly CreateOrderOutcome, the errors and kept items of the items checked in order |
| ModernRequestValidation.MissingItemsRejected | test-files/modern/src/Http/Validation/RequestValidator.php:39-47 | a form whose items are missing, not an array or empty is refused with the one error "Items zijn verplicht" |
| ModernRequestValidation.PutAllKeys | test-files/modern/src/Http/Validation/RequestValidator.php:59-83 | recording errors never removes a field, and every field written is present afterwards |
| ModernRequestValidation.ErrorsOfKeys | test-files/modern/src/Http/Validation/RequestValidator.php:55-94 | an error field is recorded exactly when some item records it |
| ModernRequestValidation.ErrorsOfEmpty | test-files/modern/src/Http/Validation/RequestValidator.php:55-94 | no error is recorded exactly when no item records one |
| ModernRequestValidation.KeptOrder | test-files/modern/src/Http/Validation/RequestValidator.php:86-93 | the kept items are the items' kept values in increasing input order, and every other item kept nothing |
| ModernRequestValidation.CreateOrderAccepted | test-files/modern/src/Http/Validation/RequestValidator.php:44-104 | the request is accepted exactly when items is a non-empty array, no item records an error and some item is kept; it then holds the kept items in input order |
| ModernRequestValidation.AcceptedItemsInRange | test-files/modern/src/Http/Validation/RequestValidator.php:55-104 | every item of an accepted request has id at least 1, price at least 0 and quantity at least 1, and comes, in order, from a form item holding exactly those values |
| ModernRequestValidation.NonArrayItemReported | test-files/modern/src/Http/Validation/RequestValidator.php:58-102 | a non-array item is reported under items.<index> and the request is refused |
| ModernRequestValidation.ValidateDeleteOrder | test-files/modern/src/Http/Validation/RequestValidator.php:31-116 | the request is accepted exactly when the query id passes FILTER_VALIDATE_INT with a value of at least 1, and then carries that id; otherwise it is refused with the one error order_id |
| ModernUserDto.FullName | test-files/modern/src/Domain/Order/DTOs/UserDTO.php:19-22 | the full name neither begins nor ends with a character trim() removes |
| ModernUserDto.FullNameParts | test-files/modern/src/Domain/Order/DTOs/UserDTO.php:19-22 | the joined names are the full name with only trim() blanks around it |
| ModernUserDto.FullNameWithoutLastName | test-files/modern/src/Domain/Order/DTOs/UserDTO.php:19-33 | without a last name the full name is the trimmed first name |
| ModernUserDto.FullNameWithoutFirstName | test-files/modern/src/Domain/Order/DTOs/UserDTO.php:19-22 | without a first name the full name is the trimmed last name |
| ModernUserDto.FullNameOfTrimmedNames | test-files/modern/src/Domain/Order/DTOs/UserDTO.php:19-22 | two names without blank outer ends are joined by one space unchanged |
| ModernUserDto.StringArgument | test-files/modern/src/Domain/Order/DTOs/UserDTO.php:14-16 | a value passes as a string parameter exactly when it is a string, unchanged |
| ModernUserDto.FromArray | test-files/modern/src/Domain/Order/DTOs/UserDTO.php:27-35 | reading succeeds exactly when email and firstname are strings and lastname is a string or absent; the id is (int) of the id field, and lastname defaults to '' |
| ModernUserDto.FromArrayOf | test-files/modern/src/Domain/Order/DTOs/UserDTO.php:24-35 | every user is read back unchanged from its documented array shape |
| ModernUserDto.FromArrayWithoutLastName | test-files/modern/src/Domain/Order/DTOs/UserDTO.php:19-35 | leaving lastname out gives an empty last name, and the full name is then the trimmed first name |
| ModernJsonResponse.Success | test-files/modern/src/Http/Responses/JsonResponse.php:24-31 | a success response carries the flag true, the data unchanged and the status code |
| ModernJsonResponse.Error | test-files/modern/src/Http/Responses/JsonResponse.php:33-40 | an error response carries the flag false, only the error message and the status code |
| ModernJsonResponse.DefaultStatuses | test-files/modern/src/Http/Responses/JsonResponse.php:24-33 | the default status is 200 for success and 400 for error |
| ModernJsonResponse.Payload | test-files/modern/src/Http/Responses/JsonResponse.php:47-50 | the encoded array always begins with the success key |
| ModernJsonResponse.SpreadLeadingKey | test-files/modern/src/Http/Responses/JsonResponse.php:47-50 | spreading entries into an array never moves its first key |
| ModernJsonResponse.SpreadGet | test-files/modern/src/Http/Responses/JsonResponse.php:49 | after spreading, a key holds the value the spread array gives it, or else the value it held before |
| ModernJsonResponse.SpreadFresh | test-files/modern/src/Http/Responses/JsonResponse.php:49 | spreading keys the array does not hold yet appends the entries in order |
| ModernJsonResponse.PayloadGet | test-files/modern/src/Http/Responses/JsonResponse.php:47-50 | in the encoded array, success holds the flag unless the data sets success itself, and every other key holds its data value |
| ModernJsonResponse.PayloadOfPlainData | test-files/modern/src/Http/Responses/JsonResponse.php:47-50 | data without a success key follows the flag entry by entry in its own order |
| ModernJsonResponse.ErrorPayload | test-files/modern/src/Http/Responses/JsonResponse.php:33-50 | an error response sends exactly the false flag and the message |
| PhpStrings.Strip | test-files/modern/src/Domain/Order/DTOs/UserDTO.php:21 | trim() never lengthens a string and leaves neither end on a stripped character |
| PhpStrings.StripParts | test-files/modern/src/Domain/Order/DTOs/UserDTO.php:21 | a string is trim()'s result with only stripped characters around it |
| PhpStrings.StripPadding | test-files/modern-v2/src/Domain/Customer/DTOs/AddressDTO.php:21-22 | trimming blank padding around a text without blank ends gives exactly the text |
| PhpStrings.TrimIdempotent | test-files/modern-v2/src/Domain/Customer/DTOs/AddressDTO.php:21-22 | trimming twice is trimming once |
| PhpStrings.ToUpper | test-files/modern-v2/src/Domain/Catalog/Enums/ProductStatus.php:24 | strtoupper keeps the length and upper-cases only ASCII letters |
| PhpStrings.Explode | test-files/modern-v2/src/Domain/Customer/DTOs/AddressDTO.php:20 | explode gives at least one part and no part contains the separator |
| PhpStrings.ImplodeExplode | test-files/modern-v2/src/Domain/Customer/DTOs/AddressDTO.php:20 | joining explode's parts with the separator gives the input back |
| PhpStrings.ExplodeNoSeparator | test-files/modern-v2/src/Domain/Customer/DTOs/AddressDTO.php:20-22 | a string without the separator explodes into itself alone |
| PhpStrings.ExplodeFirst | test-files/modern-v2/src/Domain/Customer/DTOs/AddressDTO.php:20-22 | exploding a separator-free prefix, the separator and a rest splits off exactly that prefix |
| PhpStrings.Bin2Hex | test-files/modern-v2/src/Http/Security/CsrfTokenManager.php:25 | bin2hex writes two lower-case hexadecimal digits per byte |
| PhpStrings.Hex2BinBin2Hex | test-files/modern-v2/src/Http/Security/CsrfTokenManager.php:25 | hex2bin undoes bin2hex, so bin2hex loses nothing |
| PhpValues.FilterIntAgreesWithCast | test-files/modern-v2/src/Http/Validation/OrderRequestValidator.php:107-108 | a string FILTER_VALIDATE_INT accepts is numeric, and the (int) cast reads the same integer from it |
| PhpValues.FilterIntOfIntString | test-files/modern-v2/src/Http/Validation/OrderRequestValidator.php:107 | every integer written in decimal passes FILTER_VALIDATE_INT unchanged |
| PhpValues.FilterIntOfInt | test-files/modern-v2/src/Http/Validation/OrderRequestValidator.php:107-108 | filter_var returns an integer as it is |
| PhpValues.IntCastOfIntString | test-files/modern-v2/src/Domain/Cart/DTOs/CartDTO.php:32-37 | every integer written in decimal is numeric and (int) reads it back |
| PhpValues.CastOfSignedDigits | test-files/modern-v2/src/Http/Validation/OrderRequestValidator.php:37 | a signed run of digits between white space is numeric, and (int) reads its value |
| PhpValues.Wrap | test-files/modern-v2/src/Domain/Cart/DTOs/CartItemDTO.php:33 | an integer in the 64-bit range is kept, and any other is replaced by the 64-bit integer congruent to it modulo 2^64 |
| PhpValues.LiteralWrappedInt | test-files/modern-v2/src/Domain/Cart/DTOs/CartItemDTO.php:33 | (int) of a finite float is congruent modulo 2^64 to its value truncated toward zero, and equal to the saturating string cast when that value is in range |
| PhpValues.FloatIntCast | test-files/modern-v2/src/Domain/Cart/DTOs/CartItemDTO.php:33 | (int) of a float gives 0 for a text holding no literal (infinities, NaN) and otherwise the wrapped truncation of its value |
| PhpValues.FloatIntCastNonFinite | test-files/modern-v2/src/Domain/Cart/DTOs/CartItemDTO.php:33 | INF, -INF and NAN cast to 0 |
| PhpValues.FloatIntCastWraps | test-files/modern-v2/src/Domain/Cart/DTOs/CartItemDTO.php:33 | 1e19 casts to 1e19 - 2^64, a negative integer, not to the largest one |
| PhpValues.LiteralInt | test-files/modern-v2/src/Http/Validation/OrderRequestValidator.php:37 | (int) of a numeric string is 0 when its double is infinite, and otherwise its value truncated toward zero and clamped to the 64-bit range |
| PhpValues.OverflowingStringCast | test-files/modern-v2/src/Http/Validation/OrderRequestValidator.php:37 | "1e309" is numeric, yet casts to 0 because its double is infinite |
| PhpValues.FilterFloatString | test-files/modern/src/Http/Validation/RequestValidator.php:75 | a string FILTER_VALIDATE_FLOAT accepts is, after its blanks, exactly one decimal literal, and the float is that literal's value |
| PhpValues.FilterFloatOfLiteral | test-files/modern/src/Http/Validation/RequestValidator.php:75 | a text that is one literal is refused when its double is infinite, refused when its double is 0 although it is longer than one character and holds a digit 1 to 9, and otherwise read as the literal's value |
| PhpValues.FilterFloatZeroExponent | test-files/modern/src/Http/Validation/RequestValidator.php:75 | "0e5" is refused, since it denotes 0 yet holds the digit 5 |
| PhpValues.FilterFloatOverflow | test-files/modern/src/Http/Validation/RequestValidator.php:75 | "1e309" is refused, since its double is infinite |
| PhpValues.FilterFloatPlainZero | test-files/modern/src/Http/Validation/RequestValidator.php:75 | "0.0" is accepted as 0, since it holds no digit 1 to 9 |
| ModernRequestValidation.ZeroExponentPriceRejected | test-files/modern/src/Http/Validation/RequestValidator.php:75-93 | a counted item priced "0e5" records the invalid-price error under its index and is not kept |
| PhpValues.IntCastWithoutDigits | test-files/modern-v2/src/Http/Validation/OrderRequestValidator.php:37 | a string starting with no white space, sign, digit or point casts to 0 |
| RalphReports.EntriesAt | engine/app/Services/RalphLoop.php:483-485 | the entries visited for `$a[$k] ?? []` are those of an array stored under k, and none when the value is missing, null or not an array |
| RalphReports.ErrorRecord | engine/app/Services/RalphLoop.php:486-491 | a record keeps the file name and takes each of line, message and ignorable from the message, or 0, 'Unknown error' and false when that field is absent or null |
| RalphReports.PhpStanErrors | engine/app/Services/RalphLoop.php:470-479 | empty or undecodable output gives no errors |
| RalphReports.RunPhpStan | engine/app/Services/RalphLoop.php:470-495 | the nested loops over files and their messages build exactly PhpStanErrors of the decoded report |
| RalphReports.FileErrorsEntries | engine/app/Services/RalphLoop.php:485-492 | a file contributes one record per message, in the order of its messages |
| RalphReports.AllErrorsOrigin | engine/app/Services/RalphLoop.php:483-493 | every error record comes from one message of one file of the report |
| RalphReports.AllErrorsComplete | engine/app/Services/RalphLoop.php:483-493 | every message of every file of the report gives an error record |
| RalphReports.AllErrorsCount | engine/app/Services/RalphLoop.php:483-495 | the error count is the number of messages over all files |
| RalphReports.MatchFailures | engine/app/Services/RalphLoop.php:546-553 | one failure record per match of the failure pattern |
| RalphReports.ParsePestOutput | engine/app/Services/RalphLoop.php:534-556 | the loop over the matches builds exactly MatchFailures of them |
| RalphReports.PestFailures | engine/app/Services/RalphLoop.php:518-520 | a successful Pest run reports no failures |
| RalphReports.RunPest | engine/app/Services/RalphLoop.php:504-526 | returns exactly PestFailures of the run |
| RalphReports.PestFailureCount | engine/app/Services/RalphLoop.php:518-553 | a successful run has no failures and a failed one exactly one per match, each with the trimmed test name and file and the message 'Test failed' |
| RalphReports.UnmatchedFailureIsSilent | engine/app/Services/RalphLoop.php:518-555 | a failed Pest run whose output matches the failure pattern nowhere reports no failures |
| RalphPrompt.Section | engine/app/Services/RalphLoop.php:334-356 | a section is empty without lines and otherwise opens with its heading |
| RalphPrompt.GenerateRefactorPrompt | engine/app/Services/RalphLoop.php:315-364 | the prompt built by successive appends is exactly PromptText of the code, errors and failures |
| RalphPrompt.Assemble | engine/app/Services/RalphLoop.php:320-363 | instructions, error section, failure section, code block and FIXED CODE heading, in that order |
| RalphPrompt.AppendErrors | engine/app/Services/RalphLoop.php:334-343 | the PHPSTAN ERRORS heading and one '- Line %d: %s' line per error, only when there are errors |
| RalphPrompt.AppendFailures | engine/app/Services/RalphLoop.php:346-356 | the TEST FAILURES heading and one '- %s (Line %d): %s' line per failure, only when there are failures |
| RalphPrompt.AppendSection | engine/app/Services/RalphLoop.php:334-356 | appending a heading and then one formatted line per item, in order, gives the section of those lines |
| RalphPrompt.PromptFrame | engine/app/Services/RalphLoop.php:320-361 | every prompt starts with the instructions and ends with the current code in its php block followed by the FIXED CODE heading |
| RalphPrompt.CleanPrompt | engine/app/Services/RalphLoop.php:333-361 | without errors or failures the prompt is the instructions followed directly by the code block and the FIXED CODE heading |
| RalphPrompt.PromptOpensErrors | engine/app/Services/RalphLoop.php:334-335 | with errors, the PHPSTAN ERRORS heading follows the instructions directly |
| RalphPrompt.PromptOpensFailures | engine/app/Services/RalphLoop.php:346-347 | with failures, the TEST FAILURES heading follows the instructions and the error section |
| RalphPrompt.PromptListsError | engine/app/Services/RalphLoop.php:336-342 | every PHPStan error appears in the prompt as its '- Line %d: %s' line |
| RalphPrompt.PromptListsFailure | engine/app/Services/RalphLoop.php:348-355 | every Pest failure appears in the prompt as its '- %s (Line %d): %s' line |
| RalphFix.LazyEnd | engine/app/Services/RalphLoop.php:391 | the lazy group ends at the least position from which white space leads to a closing fence, and nowhere when no such position exists |
| RalphFix.FirstMatch | engine/app/Services/RalphLoop.php:391 | the leftmost position where the fenced-block pattern matches, and none when it matches nowhere |
| RalphFix.FencedCodeExists | engine/app/Services/RalphLoop.php:391 | the pattern matches exactly when some opening fence is followed, six or more characters on, by three backticks |
| RalphFix.FencedCodeShape | engine/app/Services/RalphLoop.php:391-392 | the match opens at the first opening fence, the group starts after the white space that follows it and ends where only white space leads to the first closing fence |
| RalphFix.NoBackticksNoMatch | engine/app/Services/RalphLoop.php:391 | a reply without backticks contains no fenced block |
| RalphFix.FencedReply | engine/app/Services/RalphLoop.php:391-393 | a reply with a php-fenced block after backtick-free prose yields exactly the block's code, whatever follows the block |
| RalphFix.PlainReply | engine/app/Services/RalphLoop.php:395-398 | a reply without a fenced block whose trimmed text starts with <?php is taken whole, trimmed |
| RalphFix.ProseReply | engine/app/Services/RalphLoop.php:391-400 | a reply with neither a fenced block nor a leading <?php gives no fix |
| PathOrder.PrecedesTotal | engine/app/Services/RalphLoop.php:577 | any two paths are ordered one way or the other |
| PathOrder.PrecedesAntisymmetric | engine/app/Services/RalphLoop.php:577 | two paths that precede each other are equal |
| PathOrder.PrecedesTransitive | engine/app/Services/RalphLoop.php:577 | the order of paths is transitive |
| PathOrder.LeastExists | engine/app/Services/RalphLoop.php:577 | every non-empty finite set of paths has a least one |
| PathOrder.Sorted | engine/app/Services/RalphLoop.php:577 | the listing holds every path of the set exactly once, in strictly ascending order |
| RalphLoopEngine.PhpFilesIn | engine/app/Services/RalphLoop.php:577 | the pattern dir/*.php finds exactly the entries, files and subdirectories alike, directly inside dir whose name ends in .php and does not start with a dot |
| RalphLoopEngine.WriteThenRead | engine/app/Services/RalphLoop.php:568-608 | a file target reads back exactly what was written and keeps the other paths; writing to any other target fails with the not-yet-supported exception |
| RalphLoopEngine.DirectoryReadListsFile | engine/app/Services/RalphLoop.php:575-586 | every *.php entry directly inside a directory target appears in what is read as its own FILE block: a file with its content, a subdirectory with the empty content file_get_contents gives it |
| RalphLoopEngine.EmptyDirectoryRead | engine/app/Services/RalphLoop.php:575-586 | a directory reads as the empty string exactly when it holds no *.php file and no *.php subdirectory |
| RalphLoopEngine.LoopUnfold | engine/app/Services/RalphLoop.php:195-279 | an iteration that is not gold and whose correction succeeds records its counts and fix flag, then continues, or after iteration MAX_ITERATIONS ends unsuccessfully with its counts |
| RalphLoopEngine.LoopStops | engine/app/Services/RalphLoop.php:231-276 | a gold iteration ends the run with success, zero counts and its record added; a correction that throws ends the run with that exception |
| RalphLoopEngine.MissingBinary | engine/app/Services/RalphLoop.php:615-631 | no exception exactly when every binary exists |
| RalphLoopEngine.FirstMissingBinary | engine/app/Services/RalphLoop.php:617-630 | the exception names the first missing binary in the order rector, phpstan, pest, with its path |
| RalphLoopEngine.RalphLoop.constructor | engine/app/Services/RalphLoop.php:125-135 | the project root defaults to the working directory and each binary sits at root/vendor/bin/name |
| RalphLoopEngine.RalphLoop.Create | engine/app/Services/RalphLoop.php:125-138 | construction throws exactly when a binary is missing, with the exception for the first missing one, and otherwise gives a fresh controller over the given files |
| RalphLoopEngine.RalphLoop.ValidateBinaries | engine/app/Services/RalphLoop.php:615-631 | the loop over the three binaries returns the exception for the first missing one, or none |
| RalphLoopEngine.RalphLoop.ReadTarget | engine/app/Services/RalphLoop.php:568-587 | a file reads as its content, a directory as the FILE blocks of its *.php entries in ascending order, a subdirectory's block being empty |
| RalphLoopEngine.RalphLoop.WriteTarget | engine/app/Services/RalphLoop.php:595-608 | a file target is overwritten; any other target leaves the files alone and gives the exception |
| RalphLoopEngine.RalphLoop.RunRector | engine/app/Services/RalphLoop.php:414-437 | applied exactly when Rector exits with 1; its rewrites land only outside dry-run mode |
| RalphLoopEngine.RalphLoop.Repair | engine/app/Services/RalphLoop.php:252-276 | the applied flag and the new files, or the exception, are those of RepairOutcome; an exception leaves the files alone |
| RalphLoopEngine.RalphLoop.Execute | engine/app/Services/RalphLoop.php:152-300 | the result, or the exception, and the files afterwards are exactly those of Run |
| RalphLoopEngine.RalphLoop.Iteration | engine/app/Services/RalphLoop.php:196-278 | one pass of the loop body either ends the run as Loop does or leaves Loop's outcome to the next iteration with this record added |
| RalphLoopProperties.RepairEffect | engine/app/Services/RalphLoop.php:252-276 | a fix is applied exactly outside dry-run mode when the reply yields code that differs from the current code; a file target then reads back as the fix; the only failure is a write to a target that is not a file |
| RalphLoopProperties.RepairOnFiles | engine/app/Services/RalphLoop.php:252-276 | a correction keeps the set of files and every file but the target, and changes nothing in dry-run mode |
| RalphLoopProperties.StepProperties | engine/app/Services/RalphLoop.php:252-276 | the correction step fails only on a non-file target, changes only the target, applies a fix only outside dry-run mode and in dry-run mode does nothing |
| RalphLoopProperties.LoopLength | engine/app/Services/RalphLoop.php:195-279 | the loop ends within MAX_ITERATIONS iterations with one record per iteration |
| RalphLoopProperties.LoopPrefix | engine/app/Services/RalphLoop.php:236-278 | the loop only appends to the trail it was given |
| RalphLoopProperties.LoopRecords | engine/app/Services/RalphLoop.php:218-278 | each record carries its iteration number, the Rector flag only in iteration 1, that iteration's counts, and a fix flag only when fixes may be applied |
| RalphLoopProperties.LoopTrail | engine/app/Services/RalphLoop.php:195-279 | the trail is bounded, keeps what it was given and adds the record of each iteration run |
| RalphLoopProperties.LoopVerdict | engine/app/Services/RalphLoop.php:231-299 | success exactly when the last iteration was gold and no earlier one was, with zero counts; otherwise MAX_ITERATIONS iterations and the counts of the last |
| RalphLoopProperties.LoopFailure | engine/app/Services/RalphLoop.php:268-272 | the loop throws only the write exception, on a target that is not a file, with the files as it found them |
| RalphLoopProperties.LoopFrame | engine/app/Services/RalphLoop.php:195-279 | a loop whose step changes only the target keeps every other file |
| RalphLoopProperties.LoopIdle | engine/app/Services/RalphLoop.php:252-276 | with a step that does nothing the loop completes and changes no file |
| RalphLoopProperties.LoopCongruence | engine/app/Services/RalphLoop.php:195-279 | the loop depends on the checkers and the correction step only through their values |
| RalphLoopProperties.MissingTarget | engine/app/Services/RalphLoop.php:155-159 | a missing target throws "Target path does not exist" before any tool runs, changing nothing |
| RalphLoopProperties.RunTrail | engine/app/Services/RalphLoop.php:165-278 | a completed run has 1 to MAX_ITERATIONS records numbered from 1, rector_applied only in the first and only for exit code 1, each iteration's counts, and no applied fix in dry-run mode |
| RalphLoopProperties.RunVerdict | engine/app/Services/RalphLoop.php:195-299 | a completed run succeeds exactly when its last iteration had no PHPStan errors and no Pest failures and no earlier one did; otherwise it ran MAX_ITERATIONS iterations and reports the counts of the last |
| RalphLoopProperties.FirstIterationGold | engine/app/Services/RalphLoop.php:231-245 | gold in the first iteration ends the run with one record, no AI call and the files as Rector left them |
| RalphLoopProperties.RunFailure | engine/app/Services/RalphLoop.php:152-300 | execute throws only for a missing target, or in a live run that would write to a directory |
| RalphLoopProperties.RunDryRun | engine/app/Services/RalphLoop.php:152-300 | a dry run changes no file, completes whenever the target exists, applies no fix and does not depend on the AI |
| RalphLoopProperties.RunLiveFile | engine/app/Services/RalphLoop.php:177-278 | a live run on a file completes and changes only the target apart from Rector's rewrites |
| RalphLoopProperties.UnmatchedPestFailureIsGold | engine/app/Services/RalphLoop.php:518-555 | a failing Pest run whose output matches no FAILED pattern counts as no failures, so with a clean PHPStan report the iteration is gold |
| OrderedMaps.Get | test-files/modern-v2/src/Http/Validation/OrderRequestValidator.php:107 | a lookup finds nothing exactly when the key is absent, and otherwise a value stored under that key |
| OrderedMaps.Put | test-files/modern-v2/src/Http/Validation/OrderRequestValidator.php:119 | writing an existing key replaces its value where it stands; writing a new key appends it |
| OrderedMaps.PutGet | test-files/modern-v2/src/Http/Validation/OrderRequestValidator.php:119 | after a write the key maps to the written value and every other key is as before |
| OrderedMaps.PutKeys | test-files/modern-v2/src/Http/Validation/OrderRequestValidator.php:119 | a write keeps every existing key in its place and appends only a new one |
| OrderedMaps.PutDistinct | test-files/modern-v2/src/Http/Validation/OrderRequestValidator.php:119 | a write never makes a key occur twice |
| OrderedMaps.GetDistinct | test-files/modern-v2/src/Http/Validation/OrderRequestValidator.php:107 | in an array with distinct keys each value is found under its own key |

## Left out

- Processes, HTTP and logging: the Symfony `Process` runs, their arguments and the `PROCESS_TIMEOUT` of 300 seconds are not modelled. Nor are the Anthropic client request (the model name and `max_tokens`) and the `echo` log lines. Their results are inputs.
- `json_decode` and the PCRE engine of `parsePestOutput`: the decoded report (or none for empty or invalid output) and the list of pattern matches are inputs. What the model stands for is what the foreach loops build from them.
- `glob`: its listing is modelled as the `*.php` entries directly inside the directory, files and subdirectories alike, sorted by byte order. `file_get_contents` of a listed subdirectory is modelled as the empty string. Several details are not modelled:
  - locale collation;
  - path normalisation;
  - other glob metacharacters in the directory name;
  - files that exist but cannot be read, for which the `$content !== false` guard in `readTarget` would skip the block.
- Float money: subtotals, VAT amounts, totals, the VAT breakdown, `getPriceWithVat`, `VatRate::rate` and `VatCategory::rate` are left out, and so is every `round()`. Money fields are carried opaquely. `percentage()` is modelled as the integers 21, 9 and 0.
- The price a validator accepts is a Dafny `real` read from the float's decimal text. FILTER_VALIDATE_FLOAT is modelled as refusing a text whose double is infinite, and a text whose double is 0 although it is longer than one character and holds a digit 1 to 9. Other double rounding, such as a nonzero price that is not exactly representable, is not modelled, nor is NaN.
- Clock and randomness are parameters: the timestamps `create` and `withStatus` set, and a `created_at` missing from a row, are clock readings, and a CSRF token is built from 32 random bytes passed in. `hex2bin` is modelled only to show that `bin2hex` loses nothing.
- `getTokenField`'s HTML, `getDisplayName`'s `htmlspecialchars`, the JSON text, `json_encode` flags and the headers `send` emits are not modelled. The payload `send` encodes is modelled as an ordered array.
- PHP `int` is 64-bit. `(int)` of a numeric string saturates at the range ends, except that one whose double is infinite gives 0. `(int)` of a float wraps modulo 2^64. Both are modelled. `array_sum` overflowing into a float in `totalQuantity` is not modelled; quantities are unbounded integers there.
- `ModernRequestValidation`: each field's error list is modelled as its single message. The code stores a one-element list.
- `RalphLoopEngine.RalphLoop.Create`: the constructor's call to `validateBinaries` is split out. `new RalphLoop` becomes the constructor plus `Create`, which returns the exception as a `Result`.
- `RalphFix.FencedReply`: the closing-form round trip is proved for code without backticks and without white space at either end. `RalphFix.FencedCodeShape` states the general lazy-match semantics.
- `RalphPrompt.PromptOpensErrors`: the prompt is shown to contain the error section when there are errors. When there are none, the section is shown to be empty (`RalphPrompt.Section`, `RalphPrompt.CleanPrompt`). It is not claimed that the text "## PHPSTAN ERRORS" is absent, because the current code may itself contain it. The same holds for `RalphPrompt.PromptOpensFailures`.
- A content block without text is the reply "" (a missing `text`). A thrown request is `TransportFailure`.
- The loop lemmas (`RalphLoopProperties.Loop*`) are stated for any correction step and any per-iteration counts. The `Run*` lemmas instantiate them with the step and counts of `execute`.
- The `COMPLETE_CODE_EXPORT.php` files are copies of the modelled sources and are not modelled again.
- PHP's `strict_types` `TypeError`, for a legacy type code that is neither an integer nor a string, is modelled as a failure result of the callers that pass such a value.
- `OrderDto.FromDatabaseRow`: a timestamp a row holds is kept as its `(string)` text. Its parsing by `DateTimeImmutable` is not modelled. Neither is the exception thrown for text that does not parse, such as `"garbage"`, or for an array, which casts to `"Array"`. A row whose `created_at` is the text `"now"` is kept as that text, not as a clock reading.
- `PhpValues.IntCast`: a float, and a numeric string, is read as the exact number its decimal text denotes. Rounding to a double is not modelled, apart from overflow to infinity, which `LiteralInt` models. So a text with more significant digits than a double holds casts by its exact value.
