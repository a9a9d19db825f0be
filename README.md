# Animal-Food inventory core, modelled in Dafny

This project models the part of the Animal-Food back end that allocates and
fulfils stock. It also models the guards and preprocessing around that
part:

- **Backlog settlement.** A new batch of an offered product settles the
  product's backlog (unmet demand) row by row, in the order the rows are
  fetched (`BacklogRepositories`).
- **Formula requirement check.** A single SQL statement checks whether raw
  materials cover a production run and then debits them
  (`ProductOfferedSql`).
- **Offered products.** `ProductOfferedServices` covers creating batches of
  offered products and the product code generated for them.
  `ProductOfferedRepositories` holds the table those batches are written to.
- **Orders.** An order is accepted when stock covers it. Otherwise a backlog
  row records the missing units. Updates recompute the total when the
  discount changes, and debit the batch on delivery
  (`OrderServices`, `OrderRepositories`). As written, every order for a
  stored batch fails first on the price read (see Findings), so these
  paths are modelled for the price the code evidently means to read.
- **Formula lines and prices.** Guard chains for formula lines and prices
  (`FormulaServices`, `PriceServices`).
- **Roles and users.**
  - The permission whitelist and its membership test (`Permissions`).
  - The role search by functionality, its de-duplication and the role
    table (`RoleRepositories`).
  - The role guards (`RoleServices`).
  - The user guards, password hashing and the users table's uniqueness
    constraints (`UserServices`).
- **Preprocessing.** The audit defaults and stamps every repository applies
  (`Records`, `RepositoryUtils`, `RepositoriesBase`).

The database is modelled as state, or as the answers it gives:

- A table that the core writes becomes a class holding a `map` from id to
  row.
- A table that the core only reads becomes a value parameter: the stored
  ids, a price map, or the row a lookup answers.
- A query answer whose order the code relies on is an input. Examples are
  the backlog rows of a product and the roles a permit query returns.
- Clock readings, fresh UUIDs and the password hasher are parameters.

Error paths are modelled as `Result`/`Option` values. An exception the
service does not catch, such as a `TypeError` from comparing `None` with 0,
becomes the error `Uncaught`.

Monetary amounts and order quantities (`Decimal` in the source) are `real`.
`int(Decimal)` is truncation toward zero (`Common.TruncToInt`). Strings are
`seq<char>`. `lower()` and `upper()` map only the ASCII letters; no other
case folding is modelled.

Where the code and its documentation disagree, the model follows the code:

- The statement `CHECK_FORMULA_REQUIREMENTS` is defined but never executed
  when a batch is created (see Findings).
- `OrderQuantityException()` is raised without the arguments its
  constructor requires, so the source raises a `TypeError` instead
  (backend/modules/order/order_exceptions.py:66). It is modelled as `Uncaught`.
- The order service reads a batch's price as `product.price.price`. The
  product is loaded through `GET_PRODUCT_BY_ID`, which selects only the id
  of the price row, so the price is always None and the read always raises
  (see Findings). The order members take the price map `prices` as a
  parameter. The empty map `OrderRepositories.LoadedPrices` is the code as
  written; any other map is the intended reading.
- `price_sqlstatements.py` defines no `GET_PRICE_BY_PRODUCT_ID`, which the
  price service imports. The model takes that lookup's answer as a
  parameter and follows the service's design.

## Model

All paths are under `backend/`.

| member | source | states |
|---|---|---|
| Common.TruncToInt | backend/modules/order/order_repositories.py:115 | `int()` of a decimal truncates toward zero: the result is within one unit of the input, on the side of zero, for either sign |
| Common.Lower | backend/modules/users/roles/role_repositories.py:75 | lower-casing keeps the length and maps every character by itself |
| Common.Upper | backend/modules/users/roles/role_repositories.py:76 | upper-casing keeps the length and maps every character by itself |
| Records.CreateDefaults | backend/shared/utils/repository_utils.py:7-16 | `preprocess_create` adds exactly `id`, `is_active`, `created_at` and `updated_at`, each only when missing; keys already present keep their values |
| Records.UpdateStamps | backend/shared/utils/repository_utils.py:18-21 | `preprocess_update` overwrites `updated_at` and `updated_by` and leaves every other key as it was |
| Records.CreateDefaultsIdempotent | backend/shared/utils/repository_utils.py:7-16 | preprocessing a created record again changes nothing, whatever id and clock the second call draws |
| Records.UpdateStampsIdempotent | backend/shared/utils/repository_utils.py:18-21 | stamping twice with the same actor and instant is the same as stamping once |
| RepositoryUtils.PreprocessCreate | backend/shared/utils/repository_utils.py:7-16 | the dictionary is updated in place to its defaulted form and returned as the same object |
| RepositoryUtils.PreprocessUpdate | backend/shared/utils/repository_utils.py:18-21 | the dictionary is stamped in place and returned as the same object |
| RepositoriesBase.BaseRepository.PreprocessCreate | backend/shared/utils/repositories_base.py:35-44 | the base repository's copy of `preprocess_create`: the same in-place defaulting |
| RepositoriesBase.BaseRepository.PreprocessUpdate | backend/shared/utils/repositories_base.py:46-49 | the base repository's copy of `preprocess_update`: the same in-place stamping |
| BacklogRepositories.ToSaveTakesAllDefaults | backend/modules/backlog/backlog_repositories.py:30-36 | a new backlog row receives every audit default: a fresh id, active, both instants |
| BacklogRepositories.BacklogRepository.CreateBacklog | backend/modules/backlog/backlog_repositories.py:30-36 | the inserted row carries the payload, the defaults and nothing else, and is added under its new id |
| BacklogRepositories.BacklogRepository.UpdateBacklogByProductId | backend/modules/backlog/backlog_repositories.py:134-165 | no fetched row: `{}` and nothing written; otherwise the rows written are the greedy fill of the fetched rows in order, and the table is the old one with exactly those rows replaced |
| BacklogRepositories.Absorb | backend/modules/backlog/backlog_repositories.py:150-160 | one row meeting the remaining stock: the units taken from the stock are exactly the demand removed from the row; the row stays active only when it asked for more than remained; with non-negative stock and demand, neither goes negative and the stock only shrinks; id, product and creation audit are kept, and the row is stamped |
| BacklogRepositories.AbsorbRow | backend/modules/backlog/backlog_repositories.py:150-160 | one turn of the loop while stock remains: a row demanding more than the stock is reduced by it and the stock drops to 0; otherwise the row is zeroed and deactivated and the stock falls by its demand; the row is stamped either way |
| BacklogRepositories.FillAt | backend/modules/backlog/backlog_repositories.py:148-163 | the i-th fetched row is written exactly when stock remained after the rows before it, and then it is that row absorbed against that leftover |
| BacklogRepositories.Fill | backend/modules/backlog/backlog_repositories.py:148-163 | the rows written, in processing order: never more than were fetched |
| BacklogRepositories.Settled | backend/modules/backlog/backlog_repositories.py:148-163 | the fetched rows once the call is over: as many as were fetched, and every row past the written ones is left as fetched |
| BacklogRepositories.LeftoverStuck | backend/modules/backlog/backlog_repositories.py:150 | once the stock is 0 or less, no later row moves it |
| BacklogRepositories.FillNonNegative | backend/modules/backlog/backlog_repositories.py:151-156 | with non-negative demands, no written row ends with a negative demand |
| BacklogRepositories.FillSettles | backend/modules/backlog/backlog_repositories.py:148-163 | with non-negative stock and demands, demand falls by exactly min(stock, total demand), and the leftover stock is the rest |
| BacklogRepositories.FirstRowServedFirst | backend/modules/backlog/backlog_repositories.py:151-153 | stock smaller than the first row's demand is all spent on that row; no later row is written |
| BacklogRepositories.SettledStep | backend/modules/backlog/backlog_repositories.py:148-163 | while stock remains, the settled rows are the absorbed first row followed by the settlement of the rest |
| BacklogRepositories.TotalNonNegative | backend/modules/backlog/backlog_repositories.py:151-156 | total demand of non-negative rows is non-negative |
| BacklogRepositories.TotalAppend | backend/modules/backlog/backlog_repositories.py:148-163 | total demand adds over concatenation |
| ProductOfferedSql.CheckFormulaRequirements | backend/modules/product_offered/product_offered_sqlstatements.py:82-113 | the statement's outcome keeps the set of raw materials |
| ProductOfferedSql.Requirements | backend/modules/product_offered/product_offered_sqlstatements.py:83-92 | `formula_requirements`: at most one joined row per formula line, each naming a stored raw material and carrying its stored quantity |
| ProductOfferedSql.AnyShort | backend/modules/product_offered/product_offered_sqlstatements.py:93-94 | `requirements_not_met` is non-empty: only possible when some line was joined |
| ProductOfferedSql.Debit | backend/modules/product_offered/product_offered_sqlstatements.py:95-107 | the `UPDATE ... FROM`: the same raw materials afterwards, and one that no joined row names keeps its quantity |
| ProductOfferedSql.FirstFor | backend/modules/product_offered/product_offered_sqlstatements.py:102-107 | the joined row the `UPDATE ... FROM` uses for a raw material exists exactly when some joined row names it |
| ProductOfferedSql.RequirementsFromLines | backend/modules/product_offered/product_offered_sqlstatements.py:83-92 | every joined requirement row comes from a formula line of the product whose raw material exists |
| ProductOfferedSql.RequirementsCoverLines | backend/modules/product_offered/product_offered_sqlstatements.py:83-92 | every formula line of the product whose raw material exists yields a joined row |
| ProductOfferedSql.SourceLine | backend/modules/product_offered/product_offered_sqlstatements.py:83-92 | each joined row is the join of some named line of the product |
| ProductOfferedSql.JoinedRow | backend/modules/product_offered/product_offered_sqlstatements.py:83-92 | each line of the product has a named joined row |
| ProductOfferedSql.ShortLineBlocks | backend/modules/product_offered/product_offered_sqlstatements.py:93-109 | one line needing more than its raw material holds makes the answer `'false'`, and nothing is debited |
| ProductOfferedSql.CoveredNotShort | backend/modules/product_offered/product_offered_sqlstatements.py:89-94 | if every line is covered on its own, no requirement is reported short |
| ProductOfferedSql.CoveredAnswer | backend/modules/product_offered/product_offered_sqlstatements.py:93-112 | if every line is covered, the answer is `'true'` exactly when the product has a line |
| ProductOfferedSql.CoveredDebit | backend/modules/product_offered/product_offered_sqlstatements.py:95-107 | after a covered run, each named raw material is reduced by the requirement of one of its lines and stays non-negative |
| ProductOfferedSql.CoveredDebitExact | backend/modules/product_offered/product_offered_sqlstatements.py:95-107 | when each raw material appears in at most one line, it is debited by exactly that line's requirement |
| ProductOfferedSql.UnreferencedUntouched | backend/modules/product_offered/product_offered_sqlstatements.py:102-107 | raw materials that none of the product's lines name are never changed |
| ProductOfferedSql.EmptyFormulaIsFalse | backend/modules/product_offered/product_offered_sqlstatements.py:108-112 | a product without joined lines gets `'false'` and nothing changes |
| ProductOfferedSql.LinesAreNotSummed | backend/modules/product_offered/product_offered_sqlstatements.py:89-100 | two lines on the same raw material are checked one by one, not summed: each fits alone, so the answer is `'true'` although together they exceed the stock |
| ProductOfferedSql.FalseChangesNothing | backend/modules/product_offered/product_offered_sqlstatements.py:93-112 | a `'false'` answer never changes a raw material |
| ProductOfferedSql.RawMaterialTable.CheckFormulaRequirementsStatement | backend/modules/product_offered/product_offered_sqlstatements.py:82-113 | running the statement gives that answer and that new available quantity; a `'false'` leaves the table as it was |
| ProductOfferedRepositories.ProductOfferedRepository.CreateProductOffered | backend/modules/product_offered/product_offered_repositories.py:40-47 | the batch is inserted with the defaults under its new id, and nothing else changes |
| ProductOfferedRepositories.ProductOfferedRepository.DebitStock | backend/modules/order/order_repositories.py:114-123 | the batch's quantity falls by the units and it is stamped; no other batch changes |
| ProductOfferedServices.GenerateProductCode | backend/modules/product_offered/product_offered_services.py:34-46 | the code is `YY-WW-D`: seven characters, dashes at positions 2 and 5, digits elsewhere |
| ProductOfferedServices.ProductCodeRoundTrip | backend/modules/product_offered/product_offered_services.py:34-46 | parsing a generated code gives back the year mod 100, the week number `(day_of_year - 1) // 7 + 1` (1 to 53, counted from 1 January) and the weekday from 1 = Monday to 7 = Sunday |
| ProductOfferedServices.SameCodeSameDay | backend/modules/product_offered/product_offered_services.py:34-46 | two days get the same code exactly when the year mod 100, the week number and the weekday agree |
| ProductOfferedServices.CreatePlan | backend/modules/product_offered/product_offered_services.py:48-70 | a missing quantity is an uncaught `TypeError`; then the quantity is checked, then the warehouse, then the product; the plan goes through exactly when all pass, and the saved batch is named after the product and carries the quantity, the code, the actor as creator and the zero UUID as updater |
| ProductOfferedServices.QuantityCheckedBeforeLookups | backend/modules/product_offered/product_offered_services.py:56-58 | a missing or non-positive quantity is refused, as uncaught or as not positive, whatever the warehouse and product tables hold |
| ProductOfferedServices.Inserted | backend/modules/product_offered/product_offered_repositories.py:40-46 | the stored batch: the payload under the new id, active, with the two instants of `preprocess_create` |
| ProductOfferedServices.CreateProductOffered | backend/modules/product_offered/product_offered_services.py:48-89 | as written: a refused plan writes nothing; an accepted plan inserts the batch with its two creation instants and settles the product's backlog with its quantity, stamped with a later reading of the clock |
| ProductOfferedServices.UncoveredBatchStillCreated | backend/modules/product_offered/product_offered_services.py:81-83 | a batch whose formula is not covered still passes every guard, while the requirement check would answer `'false'` |
| ProductOfferedServices.CreateProductOfferedChecked | backend/modules/product_offered/product_offered_services.py:48-89 | corrected: after the guards, the requirement check runs; `'false'` reports the requirements as not met and writes nothing; otherwise the raw materials are debited, the batch is inserted and the backlog is settled |
| ProductOfferedServices.UpdateCheck | backend/modules/product_offered/product_offered_services.py:129-146 | the guards in order: id; missing quantity (uncaught); quantity ≤ 0; warehouse; product. Success exactly when all pass, with the payload renamed after the product |
| OrderRepositories.Merge | backend/modules/order/order_repositories.py:97-98 | `exclude_unset`: each field the payload sets takes its value, each one it leaves out keeps the stored value, and no other field changes |
| OrderRepositories.PatchBatch | backend/modules/order/order_repositories.py:107 | the batch the payload names, found exactly when the payload sets a stored batch id |
| OrderRepositories.PriceOf | backend/modules/order/order_repositories.py:108 | the price of the batch's product: there exactly when the batch has a product with an entry in `prices` |
| OrderRepositories.PriceNeverLoaded | backend/modules/product/product_sqlstatements.py:38-50 | as written, no batch has a readable price: the product lookup selects no price |
| OrderRepositories.PlanUpdate | backend/modules/order/order_repositories.py:85-137 | an unknown order gives `{}`; a written order keeps its id and is stamped by the actor; any debited batch is one of the stored batches; `prices` decides whether a changed discount can be priced |
| OrderRepositories.UnsetFieldsKept | backend/modules/order/order_repositories.py:97-102 | fields the patch leaves out keep their stored values |
| OrderRepositories.TotalFollowsDiscount | backend/modules/order/order_repositories.py:105-108 | corrected price reading: a changed discount recomputes the total as price × quantity − discount, and an unchanged one keeps the total |
| OrderRepositories.DiscountChangeRaises | backend/modules/order/order_repositories.py:105-108 | as written: any update that changes the discount raises |
| OrderRepositories.QuantityAloneKeepsTotal | backend/modules/order/order_repositories.py:105-108 | changing only the quantity leaves the stored total as it was |
| OrderRepositories.DebitIffDelivered | backend/modules/order/order_repositories.py:111-125 | a batch is debited exactly when the merged order is delivered, by the truncated quantity |
| OrderRepositories.UndeliveredLeavesStock | backend/modules/order/order_repositories.py:111 | an undelivered order leaves every batch as it was |
| OrderRepositories.Debited | backend/modules/order/order_repositories.py:114-123 | the batch after a delivery: the units fewer in stock and stamped by the actor, every other field unchanged |
| OrderRepositories.BatchesAfter | backend/modules/order/order_repositories.py:111-125 | the batches after an update: the same ids, the debited batch as `Debited` says, every other batch unchanged |
| OrderRepositories.DeliveryWithoutBatchRaises | backend/modules/order/order_repositories.py:124-125 | a delivery whose batch does not exist raises |
| OrderRepositories.RedeliveryDebitsAgain | backend/modules/order/order_repositories.py:111-123 | as written: an update to an order already delivered debits the batch again |
| OrderRepositories.PlanUpdateOnce | backend/modules/order/order_repositories.py:111-123 | corrected: a batch is debited only when an undelivered order becomes delivered, and the first delivery date is kept |
| OrderRepositories.DebitOnlyOnDelivery | backend/modules/order/order_repositories.py:111-123 | under the corrected plan, a debit happens exactly at the transition to delivered |
| OrderRepositories.AtMostOneDebit | backend/modules/order/order_repositories.py:111-123 | under the corrected plan, two successive updates debit the batch at most once |
| OrderRepositories.OrderRepository.CreateOrder | backend/modules/order/order_repositories.py:34-40 | the order is inserted active and undelivered under its new id |
| OrderRepositories.OrderRepository.UpdateOrder | backend/modules/order/order_repositories.py:85-137 | the order table and the batch table change exactly as the update plan says; a raise leaves both as they were |
| OrderServices.CreateDecision | backend/modules/order/order_services.py:34-84 | unknown batch: not found; a batch with no readable price is uncaught. Accepted exactly when 0 < quantity ≤ stock and the discount does not exceed price × quantity; then total = price × quantity − discount ≥ 0, not delivered, created by the actor. Shortfall exactly when a positive quantity exceeds the stock of a priced batch with a product; then the backlog row asks for the truncated missing units |
| OrderServices.CreateNeverAcceptsAsWritten | backend/modules/order/order_services.py:44-50 | as written: every order is refused, as not found for an unknown batch and uncaught for a stored one; none is accepted and no backlog row is recorded |
| OrderServices.WholeStockAccepted | backend/modules/order/order_services.py:52-56 | corrected price reading: an order for exactly the whole stock, with an admissible discount, is accepted |
| OrderServices.ShortfallCoversMissingUnits | backend/modules/order/order_services.py:56-69 | corrected price reading: a shortfall's backlog row plus the stock covers the order (up to truncation) |
| OrderServices.CreateOrder | backend/modules/order/order_services.py:34-84 | a shortfall writes only the backlog row, an acceptance only the order, a refusal nothing; batches are never touched; the order date and the two insert instants are separate clock readings |
| OrderServices.UpdateCheck | backend/modules/order/order_services.py:121-145 | the guards in order: id; the payload's batch; then, raising uncaught, a price that cannot be read and a missing or non-positive quantity; stock; a missing discount (uncaught); discount above price × quantity. None exactly when all pass |
| OrderServices.UpdateAlwaysRefusedAsWritten | backend/modules/order/order_services.py:127-133 | as written: every update is refused, and one naming a stored batch raises on the price |
| OrderServices.CheckedUpdateDoesNotRaise | backend/modules/order/order_services.py:139-162 | corrected price reading: an update that passed the guards never makes the repository raise |
| OrderServices.CheckedDeliveryKeepsStock | backend/modules/order/order_services.py:139-141 | corrected price reading: a delivery that passed the stock guard leaves its batch's quantity non-negative |
| OrderServices.UpdateOrder | backend/modules/order/order_services.py:121-162 | a refused update writes nothing; otherwise the repository update, with `{}` read as not found |
| FormulaServices.CreateFormulaPlan | backend/modules/formula/formula_services.py:35-62 | product, then quantity > 0, then raw material; the plan goes through exactly when all pass, and the saved line carries the actor and the zero-UUID updater |
| FormulaServices.UpdateFormulaCheck | backend/modules/formula/formula_services.py:99-117 | id, then a missing quantity (uncaught), then quantity ≤ 0, then product, then raw material; None exactly when all pass |
| FormulaServices.CreateAndUpdateAgree | backend/modules/formula/formula_services.py:42-54 | a line passes creation exactly when it passes the update guards under a well-formed id |
| FormulaServices.GuardOrderDiffers | backend/modules/formula/formula_services.py:42-49 | a bad quantity together with an unknown product is refused for the product on create but for the quantity on update |
| PriceServices.CreatePricePlan | backend/modules/price/price_services.py:30-59 | product, then no existing price, then price > 0; the plan goes through exactly when all pass |
| PriceServices.UpdatePriceCheck | backend/modules/price/price_services.py:96-116 | id, product, a missing price (uncaught), price ≤ 0, another row pricing the product; None exactly when all pass |
| PriceServices.UpdateKeepsOwnPrice | backend/modules/price/price_services.py:112-116 | the row that already prices the product may be updated; any other row is refused as already priced |
| PriceServices.CreateKeepsOnePrice | backend/modules/price/price_services.py:43-47 | an accepted creation keeps at most one price row per product |
| PriceServices.UpdateKeepsOnePrice | backend/modules/price/price_services.py:112-116 | an accepted update moving a row to a product keeps at most one price row per product |
| Permissions.GetPermissions | backend/modules/users/permissions/__init__.py:6-38 | the whitelist is one functionality, `USUARIOS`, with the fourteen route names in order |
| Permissions.VerifyPermissionsIn | backend/modules/users/permissions/__init__.py:41-52 | the nested search answers true exactly when some route entry of some functionality has the name |
| Permissions.VerifyPermissions | backend/modules/users/permissions/__init__.py:41-52 | true exactly for the fourteen user-management route names |
| Permissions.KnownPermissions | backend/modules/users/permissions/__init__.py:16-38 | membership in the whitelist is membership in the fourteen names |
| Permissions.UnknownNameRejected | backend/modules/users/permissions/__init__.py:52 | `test_perm_1` is not a permission |
| Permissions.OrderIrrelevant | backend/modules/users/permissions/__init__.py:45-50 | reordering or repeating functionalities, or reordering their routes, does not change the answer |
| RoleRepositories.FirstFunctionalityIsFirst | backend/modules/users/roles/role_repositories.py:198-204 | the search result is the earliest functionality whose name contains the search, and "" only when none does |
| RoleRepositories.FirstFunctionality | backend/modules/users/roles/role_repositories.py:198-204 | a non-empty answer is a functionality name that contains the search |
| RoleRepositories.GetFunctionalities | backend/modules/users/roles/role_repositories.py:176-182 | the functionality names, one per entry, in order |
| RoleRepositories.Find | backend/modules/users/roles/role_repositories.py:201 | `find(sub) >= 0` is true exactly when `sub` occurs in the string |
| RoleRepositories.CheckFunctionality | backend/modules/users/roles/role_repositories.py:198-204 | the loop returns the first functionality containing the search, or "" |
| RoleRepositories.PermitsOf | backend/modules/users/roles/role_repositories.py:184-196 | permits are found only for a functionality that is listed |
| RoleRepositories.RouteNames | backend/modules/users/roles/role_repositories.py:193-195 | one name per route entry, in order |
| RoleRepositories.PermitsOfFirst | backend/modules/users/roles/role_repositories.py:184-196 | the permits of a name are the route names of the first functionality with exactly that name |
| RoleRepositories.GetPermits | backend/modules/users/roles/role_repositories.py:184-196 | the loops return those permits, and none when no functionality matches |
| RoleRepositories.DistinctProperties | backend/modules/users/roles/role_repositories.py:99-101 | de-duplication leaves no duplicates and keeps exactly the same elements |
| RoleRepositories.Distinct | backend/modules/users/roles/role_repositories.py:99-101 | de-duplication never lengthens the list |
| RoleRepositories.DistinctOfDistinct | backend/modules/users/roles/role_repositories.py:99-101 | a list without duplicates comes back unchanged |
| RoleRepositories.DistinctKeepsFirstOrder | backend/modules/users/roles/role_repositories.py:99-101 | kept elements appear in the order of their first occurrences |
| RoleRepositories.Dedup | backend/modules/users/roles/role_repositories.py:99-101 | the comprehension keeps the first occurrence of each record, in order |
| RoleRepositories.NormalizeSort | backend/modules/users/roles/role_repositories.py:75-76 | `order` is lower-cased when given; `direction` is upper-cased only when `order` is given; an order without a direction fails |
| RoleRepositories.MergePermits | backend/modules/users/roles/role_repositories.py:90-97 | the results of one query per permit, concatenated in permit order |
| RoleRepositories.Merged | backend/modules/users/roles/role_repositories.py:90-97 | every merged role was answered to the query of one of the permits |
| RoleRepositories.SearchRoles | backend/modules/users/roles/role_repositories.py:86-105 | a match on a functionality gives the de-duplicated merged permit queries; otherwise the name query with `%search%` lower-cased |
| RoleRepositories.SearchResult | backend/modules/users/roles/role_repositories.py:86-105 | a search that finds a functionality gives a list without duplicates |
| RoleRepositories.GetRolesList | backend/modules/users/roles/role_repositories.py:62-113 | no search: every role; a search: the search branch over the whitelist; a failure exactly when the sort normalisation fails |
| RoleRepositories.WhitelistFunctionality | backend/modules/users/roles/role_repositories.py:87 | against the whitelist, a search finds `USUARIOS` exactly when it occurs in that name |
| RoleRepositories.WhitelistPermits | backend/modules/users/roles/role_repositories.py:89 | the permits of `USUARIOS` are the fourteen route names, in order |
| RoleRepositories.SearchBranches | backend/modules/users/roles/role_repositories.py:86-105 | a search that does not occur in `USUARIOS` uses the name pattern; one that does lists the roles granted any user-management route, de-duplicated |
| RoleRepositories.RoleRepository.CreateRole | backend/modules/users/roles/role_repositories.py:31-38 | the role is inserted active, with its payload and the drawn id and instants |
| RoleRepositories.RoleRepository.GetRoleByName | backend/modules/users/roles/role_repositories.py:40-49 | a stored role with exactly that name, and None exactly when there is none |
| RoleRepositories.RoleRepository.GetRoleById | backend/modules/users/roles/role_repositories.py:51-60 | the stored role, and None exactly when the id is unknown |
| RoleRepositories.RoleRepository.Restamped | backend/modules/users/roles/role_repositories.py:120-126 | the row read back for an update keeps id, name, permissions, flag and creation instant, has no creator, and carries the new updater and instant |
| RoleRepositories.RoleRepository.UpdateRole | backend/modules/users/roles/role_repositories.py:115-136 | unknown id: `{}` and nothing written; otherwise the restamped role with the set fields overlaid replaces the stored one |
| RoleRepositories.RoleRepository.UpdateActiveRole | backend/modules/users/roles/role_repositories.py:138-160 | the same for the activity flag |
| RoleRepositories.RoleRepository.DeleteRole | backend/modules/users/roles/role_repositories.py:162-173 | unknown id: `{}` and nothing deleted; otherwise exactly that role is removed |
| RoleServices.CreateRoleCheck | backend/modules/users/roles/role_services.py:25-42 | an empty name, then an empty permission list, then a non-whitelisted permission, then a name in use; None exactly when none applies |
| RoleServices.CreateKeepsNamesUnique | backend/modules/users/roles/role_services.py:34-44 | a role created after the guards keeps role names unique and grants only whitelisted routes |
| RoleServices.AllPermissionsValid | backend/modules/users/roles/role_services.py:34-37 | the loop answers true exactly when every permission is one of the fourteen names |
| RoleServices.CreateRole | backend/modules/users/roles/role_services.py:25-50 | a refused role writes nothing and reports the first failed guard; otherwise the role is inserted |
| RoleServices.GetRoleById | backend/modules/users/roles/role_services.py:81-94 | an invalid id is refused before the lookup; an unknown one is not found |
| RoleServices.UpdateRole | backend/modules/users/roles/role_services.py:96-114 | an invalid id is refused with nothing written; otherwise the repository's update, with `{}` read as not found |
| RoleServices.ActivateCheck | backend/modules/users/roles/role_services.py:123-129 | an invalid id is refused; a request not setting the flag to true is refused exactly while users have the role |
| RoleServices.ActivationOnlyGuardsDeactivation | backend/modules/users/roles/role_services.py:127-129 | activation is never refused because of users; deactivation is refused exactly when the user list is non-empty |
| RoleServices.UsersWithRole | backend/modules/users/roles/role_services.py:163-172 | no answer and an empty answer both mean no user holds the role |
| RoleServices.UpdateActivateRole | backend/modules/users/roles/role_services.py:116-139 | a refused request writes nothing; otherwise the repository's update, with `{}` read as not found |
| RoleServices.DeleteCheck | backend/modules/users/roles/role_services.py:149-153 | an invalid id, then users holding the role; None exactly when neither applies |
| RoleServices.DeleteRole | backend/modules/users/roles/role_services.py:144-161 | a refused delete removes nothing; otherwise the repository's delete, with `{}` read as not found |
| RoleServices.UsedRoleNeverRemoved | backend/modules/users/roles/role_services.py:163-172 | a role some user holds can neither be deleted nor switched off |
| UserServices.CreateUserCheck | backend/modules/users/users/user_services.py:40-65 | missing role, missing username, password shorter than 7, missing user type, email in use, username in use (as given), in that order; None exactly when none applies |
| UserServices.ToStore | backend/modules/users/users/user_services.py:67-75 | the inserted row holds the hash and salt drawn for the password, the lower-cased username, the given role, and is active |
| UserServices.RoleNameOf | backend/modules/users/users/user_services.py:80-85 | the role name is given exactly when a role is stored under the key |
| UserServices.UserTable.Write | backend/modules/users/users/user_repositories.py:23-31 | a write that would duplicate a username or an email is refused by the database; otherwise the row is stored under its id |
| UserServices.StoreUser | backend/modules/users/users/user_services.py:34-78 | a failed guard writes nothing and reports itself; otherwise the row is inserted, or the database refuses the insert for a clash |
| UserServices.CreateUser | backend/modules/users/users/user_services.py:34-87 | as written: the reported role name is the role stored under the new user's own id |
| UserServices.CreateUserWithOwnRole | backend/modules/users/users/user_services.py:34-87 | corrected: the reported role name is that of the role the user was given |
| UserServices.RoleLookedUpUnderUserId | backend/modules/users/users/user_services.py:81 | as written, a user with an existing role is reported with no role, while the intended lookup names it |
| UserServices.UsernameCaseSlip | backend/modules/users/users/user_services.py:63-73 | `Ana` passes the username guard beside a stored `ana`, and its lower-cased insert then breaks the unique username |
| UserServices.CreateUserCheckLowered | backend/modules/users/users/user_services.py:63-65 | corrected: the username is looked up lower-cased, as it is stored; every other guard answers as written; None exactly when every guard passes |
| UserServices.LoweredCheckPreventsClash | backend/modules/users/users/user_services.py:63-75 | corrected: a user who passes the lower-cased guards is inserted without breaking either uniqueness constraint |
| UserServices.LoweredCheckCatchesSlip | backend/modules/users/users/user_services.py:63-65 | corrected: `Ana` beside a stored `ana` is refused as a username in use |
| UserServices.EmailCheckedBeforeUsername | backend/modules/users/users/user_services.py:59-65 | an email in use is reported before the username is looked up |
| UserServices.Credentials | backend/modules/users/users/user_services.py:132-139 | credentials are drawn exactly when a non-empty new password is given, and are its hash and salt |
| UserServices.NewPasswordRehashed | backend/modules/users/users/user_services.py:132-146 | a new password reaches the row only as its hash, with its salt |
| UserServices.NoPasswordKeepsCredentials | backend/modules/users/users/user_services.py:132-146 | without a new password the stored password and salt are kept |
| UserServices.Updated | backend/modules/users/users/user_repositories.py:113-122 | the written row: the set fields laid over the stored user, id, user type and creation instant kept, the creator cleared (the lookup does not select it), stamped by the actor; the drawn credentials over password and salt, or the stored salt kept |
| UserServices.UpdateRow | backend/modules/users/users/user_repositories.py:100-130 | unknown id: `{}`; a clash: a database error and nothing written; otherwise the updated row, with the creator cleared |
| UserServices.UpdateUser | backend/modules/users/users/user_services.py:126-157 | an invalid id is refused before any write; otherwise the repository update with the drawn credentials, `{}` read as not found, a database error as invalid parameters |
| UserServices.ActivateUser | backend/modules/users/users/user_services.py:159-177 | an invalid id is refused; otherwise only the flag and the stamps change, and the creator is cleared |
| UserServices.ActivationNeverClashes | backend/modules/users/users/user_services.py:165-170 | an activation changes only the flag, the stamps and the cleared creator, so it never breaks a uniqueness constraint |
| UserServices.DeleteUser | backend/modules/users/users/user_services.py:179-192 | an invalid id is refused; an unknown one is not found; otherwise exactly that user is removed |
| UserServices.ChangePassword | backend/modules/users/users/user_services.py:194-222 | an invalid id is refused; otherwise the new hash and salt are written, with the user recorded as its own updater |

## Left out

- The HTTP layer, authorisation, pagination (`short_pagination`) and logging are left out. They are not part of the allocation logic.
- Database errors are modelled only where the core depends on them. These are the unique `username` and `email` of `users`, and the raise of an order update. Any other failing statement is not modelled.
- RoleRepositories.RoleRepository.UpdateRole: renaming a role to a name already in use passes the model. In the source the unique `role` column makes that statement fail, which the service reports as invalid parameters.
- RoleRepositories.RoleRepository.Restamped: `created_at` is written back with whatever default `RoleOut` gives it, because `GET_ROLE_BY_ID` does not select it. The schema base that holds that default is not part of this model, so the model keeps the stored instant.
- An explicit JSON `null` in a patch (as opposed to a field left out) is not modelled. A patch field is either unset or set to a value.
- Query answers whose order is not fixed by an `ORDER BY` are inputs. These are the backlog rows of a product and the roles each permit query returns. The ordering clauses built by `role_list_sort` are carried as the normalised pair and not interpreted.
- The user lookups join `roles`. A user whose role row is missing is therefore invisible to them. The model looks users up directly, since a role held by users cannot be deleted.
- UserServices.CreateUserCheck: the pydantic schemas already enforce a username of 3 or more characters and a password of 7 or more. The model does not assume them, so the service's own guards are exercised.
- `UserToSave` carries an `is_active` flag that `UserIn` does not declare. The model follows `preprocess_create` and stores every new user as active.
- `get_roles_list` and `get_users_list` in the services, and `get_user_by_id`, only forward a repository answer to pagination. They are not modelled beyond the repository's list.
- The price repository is plain CRUD and is not modelled. `price_sqlstatements.py` lacks `GET_PRICE_BY_PRODUCT_ID`, and its create and update statements omit `product_id`. The model follows the service's design: one price row per product, with the product stored on the row.
- A formula line for a product and raw material that already have one is accepted. No uniqueness of formula lines is modelled, because the service checks none.
- `update_product_offered`, `update_formula` and `update_price` are modelled up to their guards. Their repository writes are plain updates of one row and are not modelled.
- BacklogRepositories.BacklogRepository.UpdateBacklogByProductId: every written row carries the same instant. The source reads the clock once per row.
- Common.Lower: only the ASCII letters are mapped. Python's `str.lower()` also maps other letters, and the role search passes client text through it.
- Common.Upper: only the ASCII letters are mapped, and the length is kept. Python's `str.upper()` also maps other letters and can lengthen a string (`'ß'` becomes `'SS'`).
- ProductOfferedSql.FirstFor: where several formula lines of the product name one raw material, PostgreSQL's `UPDATE ... FROM` uses one of the joined rows, and which one is not predictable. The model always uses the first. Formula lines are not unique, so this case can occur. `CoveredDebit` states only what holds for any choice.
- UserServices.Updated: `created_at` is written back with whatever default `UserInDB` gives it, because `GET_USER_BY_ID` does not select it. The schema base that holds that default is not part of this model, so the model keeps the stored instant.
- OrderRepositories.PlanUpdate: a changed discount is priced through `prices`. As written the price is never readable, so such an update always raises (`DiscountChangeRaises`, `LoadedPrices`).
- OrderRepositories.TotalFollowsDiscount: states the recomputation for a readable price. As written a changed discount always raises (`DiscountChangeRaises`).
- OrderRepositories.OrderRepository.UpdateOrder: follows `PlanUpdate` for the given `prices`. The code as written is the case `prices == LoadedPrices`.
- OrderServices.CreateDecision: acceptance and shortfall need a readable price. As written no price is readable, so every order for a stored batch is uncaught (`CreateNeverAcceptsAsWritten`).
- OrderServices.WholeStockAccepted: holds for a readable price only. As written no order is ever accepted.
- OrderServices.ShortfallCoversMissingUnits: holds for a readable price only. As written no shortfall is ever recorded.
- OrderServices.CreateOrder: follows `CreateDecision` for the given `prices`. As written, with `LoadedPrices`, it only ever refuses.
- OrderServices.UpdateCheck: passes only with a readable price. As written it never passes (`UpdateAlwaysRefusedAsWritten`).
- OrderServices.CheckedUpdateDoesNotRaise: holds vacuously for the code as written, because no update passes the guards there.
- OrderServices.CheckedDeliveryKeepsStock: holds vacuously for the code as written, because no update passes the guards there.
- OrderServices.UpdateOrder: follows `UpdateCheck` for the given `prices`. As written every update is refused.
- Password hashing (`bcrypt` with a salt) is the parameter `hash`. Only the fact that the stored credentials are its result is modelled.
- Route entries of the whitelist are modelled as (name, description) pairs. `next(iter(entry))` and `name in entry` then read the name.

## Findings

| source | as written | input that shows it | evidently intended | confidence | as-written member | corrected member |
|---|---|---|---|---|---|---|
| backend/modules/product_offered/product_offered_services.py:72-83 | the repository only inserts the batch, so the `'false'` test on its result can never succeed and `CHECK_FORMULA_REQUIREMENTS` is never run | a batch of 1 unit of a product whose formula needs 3 units of a raw material holding 1: the batch is created and nothing is debited | run the check-and-debit for the batch's quantity first, and refuse the batch when it answers `'false'` | not executed | ProductOfferedServices.UncoveredBatchStillCreated | ProductOfferedServices.CreateProductOfferedChecked |
| backend/modules/order/order_repositories.py:111-123 | every update of an order whose merged state is delivered debits the batch again and resets the delivery date | an order already delivered, updated only to set its batch id: the batch loses the order's quantity a second time | debit the batch once, when an undelivered order becomes delivered | not executed | OrderRepositories.RedeliveryDebitsAgain | OrderRepositories.AtMostOneDebit |
| backend/modules/order/order_services.py:49 | the price is read as `product_item.product.price.price`, but the product is loaded without a price (`GET_PRODUCT_BY_ID` selects only `price_id`), so the read raises an `AttributeError` | any order for a stored batch, for instance 1 unit of a batch holding 5 whose product has a price row: the request fails before the quantity guard, and no order or backlog row is written | read the price of the batch's product from its price row | not executed | OrderServices.CreateNeverAcceptsAsWritten | OrderServices.WholeStockAccepted |
| backend/modules/order/order_services.py:133 | the update guards read the price the same way and raise for every stored batch | an update of a stored order that names its stored batch, quantity 1 and discount 0: uncaught `AttributeError` | read the price of the batch's product from its price row | not executed | OrderServices.UpdateAlwaysRefusedAsWritten | OrderServices.CheckedUpdateDoesNotRaise |
| backend/modules/order/order_repositories.py:108 | a changed discount recomputes the total from the same unreadable price | a repository update of a stored order from discount 0 to discount 1: `AttributeError` | total = price × quantity − discount with the price of the batch's product | not executed | OrderRepositories.DiscountChangeRaises | OrderRepositories.TotalFollowsDiscount |
| backend/modules/users/users/user_services.py:63-73 | the username is looked up as given, but stored lower-cased | `Ana` beside a stored `ana`: the guard passes, and the insert breaks the unique username and fails as an uncaught database error instead of `UsernameAlreadyExists` | look the username up lower-cased | not executed | UserServices.UsernameCaseSlip | UserServices.LoweredCheckPreventsClash |
| backend/modules/users/users/user_services.py:81 | the role name of a new user is looked up by the user's own id | a user given an existing role: the answer is `{}` (no role has the user's fresh id), so the user is reported with no role | look the role up by `role_id` | not executed | UserServices.RoleLookedUpUnderUserId | UserServices.CreateUserWithOwnRole |
