# foodify-api catalog core, modelled in Dafny

foodify-api is a REST back end for food ordering. Its catalog is organised in workspaces:

- A workspace holds **products**. A product may have child products, which nest through `parent_product_id`. Its type tag is `REGULAR`, `COMPLEMENTED` or `COMBO`.
- A product can offer **complement types**, which are option groups with a name, a `required` flag and a `max_selectable` limit. Product and group are linked through a join table.
- Each group holds **complements**, the selectable options. Each has a price and an `increment` flag derived from that price.

This project models the three repositories that read and write these tables. The Prisma store becomes an in-memory `Database` whose four tables are sequences in store order (module `Store`). Each repository is a value that holds its bound ids:

- its reads are functions over a snapshot of the tables;
- its writes are methods that modify the database.

The project also models the helpers around the repositories:

- the recursive include-query builder (`Query`);
- the zod request schemas of the product routes, with their string trimming (`Schemas`, over the JSON values of `Json`);
- the error-to-status mapping (`Errors`);
- the gender list and its validator (`Genders`).

`fetchChildren` loads a child's own children by binding itself to `{...this, productId}`. That copy has the repository's own properties but not its methods, so it can load a child's children but cannot load a grandchild's. A tree is therefore assembled at most two levels below the product. As soon as a product at the second level has children or option groups, of any workspace, the call fails with a `TypeError`. The model marks a repository value as an instance or as such a copy (`Products.ProductRepository.prototype`). Tree assembly then always terminates: a parent cycle through the assembled product whose rows all lie in its workspace yields a `TypeError` rather than a loop (`Products.CyclicPatchFails`). A cycle that leaves the workspace is cut off there, because children are read in the workspace only (`Products.CrossWorkspaceCycleSucceeds`). A cycle among rows that are not below the product has no effect.

The following behaviours are modelled as the code has them:

- `allData` loads the children and option groups of the repository's own product id, not those of the row it is given.
- `update` always writes the type tag, so omitting it resets the product to `REGULAR`.
- `addComplementType` looks up the product to link by id alone, in any workspace. It creates the group before that lookup, so the group stays behind when the lookup fails.
- A complement update with price 0 leaves `increment` as it was.

## Model

| member | source | states |
|---|---|---|
| Products.SanitizeProductType | src/repositories/product.repository.ts:43-47 | the result is always one of the three tags; a known tag is returned as given; anything else, a missing value included, becomes `REGULAR` |
| Products.SanitizeIdempotent | src/repositories/product.repository.ts:43-47 | sanitizing a sanitized tag returns it unchanged |
| Products.Transform | src/repositories/product.repository.ts:49-75 | restoring the API view gives back the row with every column preserved, the type tag sanitized and nothing else changed |
| Products.ChildRows | src/repositories/product.repository.ts:93-101 | a row is read exactly when it lies in workspace W and its parent is the current id |
| Products.RootRows | src/repositories/product.repository.ts:139-144 | a row is read exactly when it lies in workspace W and has no parent |
| Products.CountChildren | src/repositories/product.repository.ts:122-130 | the count is at most the table size, and it is positive exactly when some row, of any workspace, names the id as its parent |
| Products.CountLinks | src/repositories/product.repository.ts:122-130 | the count is at most the number of link rows, and it is positive exactly when some link row names the product |
| Products.FindById | src/repositories/product.repository.ts:268-271 | a position is found exactly when some row has the id, and the row at that position has it |
| Products.Collect | src/repositories/product.repository.ts:105-135 | a loop that runs to the end yields one product per child row |
| Products.CollectMeaning | src/repositories/product.repository.ts:105-135 | the loop succeeds exactly when every pass does, with their products in order; its failure is the failure of one of the passes |
| Products.CollectOk | src/repositories/product.repository.ts:105-135 | when every pass yields its product, the loop returns exactly those products |
| Products.CollectErr | src/repositories/product.repository.ts:105-133 | the first pass that throws ends the loop with its error, whatever the later rows are |
| Products.LeavesAreForest | src/repositories/product.repository.ts:93-101 | nodes without children that lie in workspace W below the same parent form a forest |
| Products.NewProductRepository | src/repositories/product.repository.ts:35-41 | `new` yields an instance, which has the class methods, with the given workspace and id |
| Products.ApplyPatch | src/repositories/product.repository.ts:242-250 | a given field takes the new value; an omitted field keeps the old one, except the type, which is always written (`REGULAR` when omitted); the id, workspace and timestamps are kept |
| Products.ProductRepository.FetchComplementTypes | src/repositories/product.repository.ts:77-86 | fails with "productId not defined" when the id is missing or 0; otherwise returns one group per link row of the product, as the group index has them |
| Products.ProductRepository.Children | src/repositories/product.repository.ts:88-136 | fails with "productId not defined" when the id is missing or 0; a success has one product per child row of W, in store order, each with its row's transformed fields |
| Products.ProductRepository.Child | src/repositories/product.repository.ts:105-133 | a successful pass has the child row's fields; on a copy, the pass succeeds exactly when the child has no children and no groups, and then yields a leaf; otherwise it fails with a `TypeError` |
| Products.ProductRepository.CopyChildren | src/repositories/product.repository.ts:117-130 | on a copy, `fetchChildren` succeeds exactly when no child row has children or groups; it then yields the children as leaves; every failure is a `TypeError` |
| Products.ProductRepository.InstanceChild | src/repositories/product.repository.ts:105-133 | on an instance, the pass for a child with a nonzero id succeeds exactly when no grandchild has children or groups; the node then carries the child's own groups and the grandchildren as leaves; every failure is a `TypeError` |
| Products.ProductRepository.ChildrenSucceeds | src/repositories/product.repository.ts:88-136 | on an instance, over a table without id 0, `fetchChildren` succeeds exactly when no product two levels below the bound one has children or groups, and otherwise fails with a `TypeError` |
| Products.ProductRepository.ChildrenShape | src/repositories/product.repository.ts:105-133 | after a success on an instance, each child carries its own groups, and its children as leaves, in store order |
| Products.ProductRepository.ChildrenAreForest | src/repositories/product.repository.ts:93-101 | on an instance or a copy, a success yields a forest: every node lies in W and names its parent node as its parent |
| Products.ProductRepository.FetchChildren | src/repositories/product.repository.ts:88-136 | fails with "productId not defined" when the id is missing or 0; otherwise the loop returns the specified `Children`: the products of the passes in order, or the error of the first pass that throws |
| Products.ProductRepository.FetchNode | src/repositories/product.repository.ts:106-132 | one pass of the loop, equal to the specified `Child`: it loads the children and groups only when their counts are positive; on a copy, a positive count fails with a `TypeError` before anything is loaded |
| Products.ProductRepository.Index | src/repositories/product.repository.ts:138-151 | exactly the workspace's root rows, in store order, each with empty `products` and `productComplementTypes`; every such row appears |
| Products.ProductRepository.FindRoot | src/repositories/product.repository.ts:158-163 | the found row has the id, lies in workspace W and has no parent; when nothing is found, no row satisfies all three |
| Products.ProductRepository.Assembled | src/repositories/product.repository.ts:172-181 | fails with "productId not defined" when the bound id is missing or 0; succeeds exactly when `fetchChildren` does; a success has the given row's fields, and the children and groups of the bound id |
| Products.ProductRepository.AssembledFails | src/repositories/product.repository.ts:117-130 | over a table without id 0, a failed assembly is a `TypeError`, and a successful one has a forest below the bound id |
| Products.ProductRepository.AllData | src/repositories/product.repository.ts:172-181 | equals `Assembled`: it fails when the bound id is missing or 0, fails exactly when `fetchChildren` fails, and otherwise yields the given row's fields with the children and groups of the bound id |
| Products.ProductRepository.Fetch | src/repositories/product.repository.ts:153-170 | fails before any lookup when the id is missing or 0, and with a not-found error when no root row of W has it; otherwise answers with `allData` of that row; that answer is either a `TypeError` or a tree whose root has the id, workspace W and no parent, and whose subtrees form a forest of W |
| Products.ProductRepository.InsertedRow | src/repositories/product.repository.ts:200-211 | the new row has the next id, workspace W, the sanitized type tag, the given parent, name, description, price, content and image URL, and `now` as both timestamps |
| Products.ProductRepository.Create | src/repositories/product.repository.ts:183-214 | appends exactly one row, the inserted row, and advances the product counter; leaves the other tables alone; answers with `allData` of the new row, which fails (keeping the row) when the repository has no id |
| Products.ProductRepository.PatchedRows | src/repositories/product.repository.ts:237-251 | the table keeps its length and ids; every row other than the bound id in W is unchanged |
| Products.ProductRepository.FindOwned | src/repositories/product.repository.ts:237-241 | the found row has the id and lies in W; when nothing is found, no row has both |
| Products.ProductRepository.Update | src/repositories/product.repository.ts:216-254 | fails when the id is missing or 0, or with no change when no row of W has it; otherwise that row becomes `ApplyPatch` of itself and nothing else changes, whatever the answer; the answer is `allData` of the patched row, which can only fail with a `TypeError` (so a patch that closes a parent cycle is still written) |
| Products.ProductRepository.AddComplementType | src/repositories/product.repository.ts:256-282 | fails without writing when the id is missing or 0; otherwise appends one group; appends the link (id, new group) when a row of ANY workspace has the id, and otherwise fails with the group kept; answers with `allData` |
| Products.DeepTreeFails | src/repositories/product.repository.ts:117-130 | a root with a child, a grandchild and a great-grandchild: `fetchChildren` and `allData` of the root fail with a `TypeError` |
| Products.CyclicPatchFails | src/repositories/product.repository.ts:216-254 | patching a root to be the child of its own child writes the row, and `allData` of it then fails with a `TypeError` |
| Products.CrossWorkspaceCycleSucceeds | src/repositories/product.repository.ts:93-101 | a cycle of two rows in different workspaces: the root's `fetchChildren` reads no child in its own workspace, so `allData` succeeds with no children |
| ComplementTypes.NewRepository | src/repositories/product-complement-type.repository.ts:31-34 | keeps the workspace; the group id is the given one, or -1 when none is given |
| ComplementTypes.Transform | src/repositories/product-complement-type.repository.ts:36-64 | restoring gives back the group row; with no complements included the list is empty, otherwise it has the same length and order and each entry restores to its row |
| ComplementTypes.Joined | src/repositories/product-complement-type.repository.ts:77-97 | the joined group exists and has the link row's group id |
| ComplementTypes.Patch | src/repositories/product-complement-type.repository.ts:136-160 | a given field takes the new value and an omitted one keeps the old; id and timestamps kept |
| ComplementTypes.ComplementTypeRepository.Index | src/repositories/product-complement-type.repository.ts:77-97 | one hydrated group per link row of the product, in link-row order, with that link's group id |
| ComplementTypes.ComplementTypeRepository.IndexAfterLink | src/repositories/product-complement-type.repository.ts:66-97 | a new link row of p adds one group at the end of p's list and changes no other product's list |
| ComplementTypes.ComplementTypeRepository.Fetch | src/repositories/product-complement-type.repository.ts:99-111 | succeeds exactly when a group has the bound id, and returns that group hydrated; otherwise fails with not-found |
| ComplementTypes.ComplementTypeRepository.Create | src/repositories/product-complement-type.repository.ts:113-134 | appends exactly one group with the given name, flag and limit, advances the counter, and returns it hydrated |
| ComplementTypes.ComplementTypeRepository.Update | src/repositories/product-complement-type.repository.ts:136-160 | fails without change when no group has the id; otherwise patches only that group and returns it hydrated |
| ComplementTypes.ComplementTypeRepository.AddToProduct | src/repositories/product-complement-type.repository.ts:66-75 | appends exactly one link (p, bound group) and returns `fetch`, which then succeeds; fails without writing when the product or the group is missing |
| ComplementTypes.DefaultRepositoryFetchFails | src/repositories/product-complement-type.repository.ts:31-34 | a repository built without a group id has id -1, so its `fetch` always fails |
| Complements.Transform | src/repositories/product-complement.repository.ts:28-42 | restoring the view, given the group column, gives back the row: nothing but the group id is dropped |
| Complements.Patch | src/repositories/product-complement.repository.ts:105-115 | given fields replace and omitted ones keep; `increment` becomes `price > 0` only when the new price is truthy, and otherwise keeps its value |
| Complements.PatchKeepsIncrementRule | src/repositories/product-complement.repository.ts:110 | a patch that does not set the price to 0 preserves the rule `increment == price > 0` |
| Complements.ZeroPriceLeavesIncrementStale | src/repositories/product-complement.repository.ts:110 | a concrete row shows that patching the price to 0 breaks that rule |
| Complements.Position | src/repositories/product-complement.repository.ts:61-65 | a position is found exactly when some complement has the id, and the row there has it |
| Complements.ComplementRepository.Index | src/repositories/product-complement.repository.ts:44-54 | exactly the complements of the bound group, transformed, in store order |
| Complements.ComplementRepository.Fetch | src/repositories/product-complement.repository.ts:56-68 | fails when the id is missing or 0; otherwise succeeds exactly when a complement has the id, in any group, and returns it |
| Complements.ComplementRepository.Create | src/repositories/product-complement.repository.ts:70-90 | appends exactly one complement of the bound group, with `increment = price > 0`, and returns it |
| Complements.ComplementRepository.Update | src/repositories/product-complement.repository.ts:92-118 | fails without change when the id is missing, 0 or unknown; otherwise only that complement becomes its `Patch`, and it is returned |
| Store.Filter | src/repositories/product.repository.ts:93-101 | a `findMany` result is no longer than the table and holds only matching rows of it |
| Store.FilterMembership | src/repositories/product.repository.ts:93-101 | a row is in the filtered table exactly when it is in the table and matches |
| Store.FilterNonEmpty | src/repositories/product.repository.ts:122-130 | a filtered table, such as the one a `_count` counts, is non-empty exactly when some row matches |
| Store.FilterAppend | src/repositories/product-complement-type.repository.ts:66-75 | filtering a table with appended rows is filtering each part |
| Store.Find | src/repositories/product.repository.ts:158-163 | `findFirst` returns the first matching position, and nothing when no row matches |
| Store.OfType | src/repositories/product-complement.repository.ts:44-54 | exactly the complements whose group id matches |
| Store.LinksOf | src/repositories/product-complement-type.repository.ts:77-97 | exactly the link rows of the product |
| Store.FindGroup | src/repositories/product-complement-type.repository.ts:99-111 | a position is found exactly when some group has the id |
| Query.GetPut | src/utils/query.utils.ts:15 | a written key reads back its new value, every other key reads as before, and well-formedness is kept |
| Query.PutPut | src/utils/query.utils.ts:15 | writing a key twice is writing it once with the second value |
| Query.Assign | src/utils/query.utils.ts:16-19 | the named keys of b, where b has them, override a; every other key reads as in a |
| Query.Spread | src/utils/query.utils.ts:16-19 | `{...a, ...b}` reads as b wherever b has the key and as a elsewhere |
| Query.Merged | src/utils/query.utils.ts:16-19 | the merge carries `baseQuery[baseKey]` unchanged under baseKey |
| Query.MergedProps | src/utils/query.utils.ts:16-19 | the merge holds exactly the base include's keys and baseQuery's keys, baseQuery winning on conflict |
| Query.GenerateRecursiveIncludeQuery | src/utils/query.utils.ts:1-25 | the loop returns `Expected`: baseQuery itself when levels <= 1, otherwise the chain of levels-1 merged includes, or a TypeError when baseQuery's first entry is not an object |
| Query.SetAtChain | src/utils/query.utils.ts:14-22 | each pass writes the next level at the bottom of the chain built so far |
| Query.ResultDepth | src/utils/query.utils.ts:14-22 | the result holds levels-1 more baseKey entries than baseQuery, so exactly `levels` when the base include does not extend the chain itself |
| Query.InsertedLevels | src/utils/query.utils.ts:15-20 | every level j steps down holds the base include's keys plus baseQuery's, baseQuery winning, and differs only in its baseKey entry |
| Query.DeepestLevel | src/utils/query.utils.ts:15-21 | the deepest level is the merge itself, and its baseKey entry carries the original base include |
| Query.ResultWellFormed | src/utils/query.utils.ts:9 | a well-formed query gives a well-formed result |
| Query.ChainDepth | src/utils/query.utils.ts:14-22 | each written level adds one baseKey entry to the chain depth |
| Query.FollowChain | src/utils/query.utils.ts:21 | walking j levels down the result reaches the level written j-th |
| Query.ChainOthers | src/utils/query.utils.ts:15 | the writes touch only the baseKey entry: all other keys keep their values |
| Schemas.TrimStart | src/routes/v1/products/schemas.ts:4 | a suffix of the input, the dropped prefix all whitespace, not starting with whitespace |
| Schemas.TrimEnd | src/routes/v1/products/schemas.ts:4 | a prefix of the input, the dropped suffix all whitespace, not ending with whitespace |
| Schemas.Trim | src/routes/v1/products/schemas.ts:4 | the result neither starts nor ends with whitespace |
| Schemas.TrimAround | src/routes/v1/products/schemas.ts:4 | whitespace around a trimmed core trims to exactly the core |
| Schemas.TrimSlices | src/routes/v1/products/schemas.ts:4 | the result is a slice of the input, with only whitespace removed around it |
| Schemas.TrimIdempotent | src/routes/v1/products/schemas.ts:4 | trimming twice is trimming once |
| Schemas.CheckField | src/routes/v1/products/schemas.ts:3-11 | a field is accepted exactly when its reference rule `Admits` holds, and its output is then the trimmed value; a rejection is reported at the field's path, as `Required` exactly when the value is missing and as `TooSmall` exactly when a positive field gets a number |
| Schemas.CheckFields | src/routes/v1/products/schemas.ts:3-11 | at most one issue per field |
| Schemas.CheckFieldsAccepts | src/routes/v1/products/schemas.ts:3-11 | no issue is raised exactly when every field admits its value |
| Schemas.CheckFieldsIssues | src/routes/v1/products/schemas.ts:3-11 | every issue comes from a field that rejects its value |
| Schemas.CheckFieldsKeys | src/routes/v1/products/schemas.ts:3-11 | only the shape's keys present in the body are output, and all of them when nothing fails |
| Schemas.CheckFieldsValues | src/routes/v1/products/schemas.ts:3-11 | each output value is the field validator's output for the input value |
| Schemas.Parse | src/routes/v1/products/schemas.ts:3-11 | a body that is not an object gets exactly one invalid-type issue, at the root; a rejected body always carries at least one issue |
| Schemas.ParseAccepts | src/routes/v1/products/schemas.ts:3-11 | a body is accepted exactly when it is an object and every field admits its value |
| Schemas.ParseOutput | src/routes/v1/products/schemas.ts:3-11 | an accepted body yields the shape's present keys and no unknown key, with strings trimmed |
| Schemas.ParseIssues | src/routes/v1/products/schemas.ts:3-11 | a rejected object gets between 1 and one-per-field issues, each at the path of a failing field |
| Schemas.NormalizeStable | src/routes/v1/products/schemas.ts:4-10 | a validator's output is accepted again and comes out unchanged |
| Schemas.OutputAdmitted | src/routes/v1/products/schemas.ts:4-10 | the output of an accepted body is itself accepted |
| Schemas.ParseIdempotent | src/routes/v1/products/schemas.ts:4-10 | re-validating an accepted output succeeds and returns the same output |
| Schemas.AdmitThree | src/routes/v1/products/schemas.ts:23-27 | a three-field shape admits a body exactly when each of its fields does |
| Schemas.AdmitSeven | src/routes/v1/products/schemas.ts:3-11 | a seven-field shape admits a body exactly when each of its fields does |
| Schemas.CreateProductAccepts | src/routes/v1/products/schemas.ts:3-11 | accepted exactly when description, name and content are strings, price is above 0, imageUrl and type are absent or strings, and parentProductId is absent or above 0 |
| Schemas.CreateProductRejectsNonPositivePrice | src/routes/v1/products/schemas.ts:6 | a price of 0 or below is rejected, with a too-small issue at `price` |
| Schemas.FailingFieldReported | src/routes/v1/products/schemas.ts:3-11 | a failing field's issue is among those reported |
| Schemas.UpdateProductAcceptsEmpty | src/routes/v1/products/schemas.ts:13-21 | the empty body is accepted and comes out empty |
| Schemas.UpdateProductAccepts | src/routes/v1/products/schemas.ts:13-21 | accepted exactly when every given field has the right type and a given price or parentProductId is above 0 |
| Schemas.CreateComplementTypeAccepts | src/routes/v1/products/schemas.ts:23-27 | accepted exactly when name is a string, required is a boolean and maxSelectable is above 0 |
| Schemas.CreateComplementTypeRejectsSentinel | src/routes/v1/products/schemas.ts:26 | a maxSelectable of -1 is rejected |
| Schemas.UpdateComplementTypeAccepts | src/routes/v1/products/schemas.ts:29-33 | accepted exactly when every given field has the right type and a given maxSelectable is above 0 |
| Schemas.CreateProductKeysDistinct | src/routes/v1/products/schemas.ts:3-11 | the shape lists each key once |
| Schemas.UpdateProductKeysDistinct | src/routes/v1/products/schemas.ts:13-21 | the shape lists each key once |
| Schemas.CreateComplementTypeKeysDistinct | src/routes/v1/products/schemas.ts:23-27 | the shape lists each key once |
| Schemas.UpdateComplementTypeKeysDistinct | src/routes/v1/products/schemas.ts:29-33 | the shape lists each key once |
| Errors.ParseError | src/utils/error.utils.ts:1-9 | a Prisma validation error gives 500 with "error database!"; a zod error gives 400 with its message parsed as JSON; anything else gives 404 with its message unchanged |
| Errors.StatusInRange | src/utils/error.utils.ts:1-9 | the status is always 400, 404 or 500 |
| Errors.StatusDependsOnName | src/utils/error.utils.ts:1-9 | two errors with the same name get the same status |
| Errors.StatusIdentifiesKind | src/utils/error.utils.ts:1-9 | each status corresponds to exactly one kind of error name, in both directions |
| Errors.MessageKept | src/utils/error.utils.ts:4-7 | apart from a Prisma validation error, the answer carries the original message |
| Errors.ParseErrorInjective | src/utils/error.utils.ts:4-7 | two errors of the same non-Prisma name with the same answer are the same error |
| Genders.ListedGendersAccepted | src/utils/insertion.utils.ts:3-6 | "female", "male" and "other" are accepted |
| Genders.ValidateGender | src/utils/insertion.utils.ts:5-6 | only a string can be accepted, and a string is accepted exactly when it is a value of the `Gender` type |
| Genders.ValidateGenderExactly | src/utils/insertion.utils.ts:5-6 | a value is accepted exactly when it is one of the three strings: any other string and any non-string is refused |
| Genders.EveryGenderListed | src/utils/insertion.utils.ts:1-3 | every value of the `Gender` type is in the list |
| Genders.ValidateGenderMatchesType | src/utils/insertion.utils.ts:1-6 | a string is accepted exactly when it is a value of the `Gender` type |
| Genders.AvailableGendersDistinct | src/utils/insertion.utils.ts:3 | the list has exactly three entries, pairwise distinct |

## Left out

- The HTTP layer, authentication and the user model are not part of this model. This covers the Express routes, JWT and bcrypt, the user repository and the middleware.
- The routes call repository methods with signatures that do not match the repositories. The model follows the repositories.
- The Prisma client is replaced by in-memory tables. Its queries are filters, first-match lookups, counts, appends and in-place patches. Results come in store order: Prisma promises no other order, and none is modelled.
- Only the join table's foreign keys are enforced (`ComplementTypes.ComplementTypeRepository.AddToProduct`). Other foreign keys and `onDelete` rules are not modelled. In particular, `create` and `update` do not check that a parent product exists.
- Reads and writes run one after another. `async`/`await` is modelled as sequential code, and the two writes of `addComplementType` are not atomic, as in the source.
- Timestamps are opaque strings passed in as `now`. `Create` stamps both `createdAt` and `updatedAt` with it. The database's automatic `updatedAt` refresh on update is not modelled.
- Numbers are modelled as follows:
  - Product and complement prices are mathematical integers, not floating point.
  - Group limits are mathematical integers, not floating point.
  - JSON numbers in request bodies are exact reals.
  - Ids are integers, with `None` for an absent id. The routes build ids with `Number(...)`, which can give `NaN`; the source's `!this.productId` treats `NaN` like 0. `NaN` ids are not modelled.
  - Floating-point rounding is not modelled.
- The complement-type table has no workspace column here. The repository stores a workspace id but never reads or writes one.
- Errors.ParseError: the result of `JSON.parse(error.message)` is kept as the opaque `ParsedJson(message)`. A message that is not JSON would make the source throw; the model does not.
- Errors.ParseError: `{ ...error }` copies the error's other own properties. Only `message` and `status` are modelled.
- Query.GenerateRecursiveIncludeQuery: objects are values. The deep copies made by `JSON.parse(JSON.stringify(...))` are the identity on them. The following are not modelled:
  - aliasing;
  - the loss of `undefined` and of functions in such a copy;
  - the way JavaScript orders integer-like keys first in `Object.keys`.
- Query.GenerateRecursiveIncludeQuery: a `baseQuery` whose first entry is `null` or a primitive throws a `TypeError`. The model returns `Err(TypeError)`, without telling the different JavaScript exceptions apart. Spreading a string entry, where JavaScript would spread its characters, is treated as contributing nothing.
- Query.SetAt: a path where JavaScript would throw returns the object unchanged. The loop only walks paths it has just written, so this path never arises.
- Schemas: zod's issue messages and its other issue fields are not modelled. Each issue keeps only its path and its code. `Required` stands for `invalid_type` with the message "Required".
- Schemas: the schemas are modelled only on objects whose fields are as above. Coercion, `passthrough` and unknown-key options are not used by the source and are not modelled.
- Genders.ValidateGender: `includes` is modelled as membership of a string. The `as Gender` cast of the source has no run-time effect, so a non-string is refused.
- Query.GenerateRecursiveIncludeQuery: `levels` is an integer here. In the source it is a JavaScript number: a fractional value runs ceil(levels) - 1 passes, and `NaN` runs none. Those inputs are not modelled.
- Products.ProductRepository: the public methods (`fetch`, `create`, `update`, `addComplementType`, `index`) are modelled for any repository value. In the source only an instance has them, and nothing calls them on a copy. The `prototype` flag matters only inside `fetchChildren`'s loop.
- Products.ProductRepository.Child: the two missing methods throw different `TypeError` messages. The model has one `TypeError` failure for both, without a message.
