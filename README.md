# E-Product backend: request handlers and validation rules

This project models the decision logic of a small Express/Mongoose e-commerce backend:
the product, order, category and user models (their Mongoose schemas and Joi validators)
and the product, order, category and auth routes. The four MongoDB collections are held in
memory, in a `Database.Db` object whose fields are sequences in natural order. Each
state-changing handler is a method over that object. Its `ensures` equate the reply and the
new collection to an "outcome" function, and lemmas about the outcome functions state what
the handlers promise.

Modules, in dependency order:

- `Base`: `Option`, and `Reply` (a sent success, a sent error with status and message, a
  Joi 400 identified by the failing key path, or `Thrown` when an exception leaves the handler).
- `Js`: request values and JavaScript truthiness, plus `split`, `trim`, the global
  backslash `replace`, and numeric text.
- `Joi`: an interpreter for `Joi.object` schemas with Joi's defaults: abort at the first
  failing key in schema order, then reject unknown keys; no empty strings; numeric text is
  converted.
- `Mongo`: ObjectId casting, `findById`/`findOne`, `find(filter)`, `deleteOne`, and
  unique indexes.
- `Crypto`: bcrypt and JWT as ideal functionalities. A hash matches exactly its password.
  A token verifies exactly under the key it was signed with.
- `CategoryModel`, `ProductModel`, `OrderModel`, `UserModel`: the records, the schema
  rules a `save` enforces, the validators, the transaction-id generator and the token methods.
- `Database`: the four collections and the invariant the schemas and unique indexes keep.
- `CategoryRoutes`, `ProductRoutes`, `OrderRoutes`, `AuthRoutes`: the handlers.

## Notes

- Neither product validator compares `discountPrice` with `price`; only the schema validator
  does, at save. An update whose body carries only a discount at or above the stored price
  passes validation and then fails at save with a 500
  (`ProductModel.DiscountNotComparedByValidators`, `ProductRoutes.UpdateValidatesBodyNotMerged`).
- `POST /reset-password/:token` validates the body before it looks at the token
  (`AuthRoutes.ResetPasswordOutcome`).
- Session tokens, email-verification links and password-reset links are all signed with
  `JWT_PRIVATE_KEY`, so a login token verifies an email (`AuthRoutes.AuthTokenVerifiesEmail`).
  Only the refresh token, signed with `JWT_REFRESH_TOKEN_PRIVATE_KEY`, is refused there.
- Signup, product create and category create have no `try`, nor do the routes wrapped in
  `asyncMiddleware` outside their own `try` blocks: a failing store call there leaves the
  handler, which the model writes `Thrown`. The handlers with a `try` answer 500 with their
  own message.
- An order's `null` discount passes `validateOrder`, but the schema validator compares it as 0,
  so an order of price 0 with a null discount fails at save (`OrderRoutes.NullDiscountAtZeroPrice`).

## Model

| member | source | states |
|---|---|---|
| Js.Trim | routes/product.js:47 | The trimmed tag has no white space at either end and is no longer than the piece. |
| Js.TrimSlice | routes/product.js:47 | `trim` removes only white space, and only from the two ends: what it keeps is a contiguous slice of the text. |
| Js.TrimOfTrimmed | routes/product.js:47 | A tag with no white space at its ends is left unchanged by `trim`. |
| Js.Split | routes/product.js:47 | `split(",")` yields one piece more than there are commas, and no piece contains a comma. |
| Js.JoinSplit | routes/product.js:47 | Nothing is lost by `split`: joining the pieces with the separator gives back the text. |
| Js.SplitJoin | routes/product.js:47 | Splitting the join of comma-free pieces gives back the same pieces in the same order. |
| Js.ReplaceBackslashes | routes/product.js:44 | The normalised path has the upload path's length, every backslash becomes `/`, every other character stays, and no backslash remains. |
| Js.NumberTextOfDigits | models/product.js:59 | `Joi.number()` converts a text of decimal digits to the number the digits spell. |
| Js.NumberTextHasDigit | models/product.js:59 | A text `Joi.number()` accepts contains a digit: the empty text and a lone sign are not numbers. |
| Js.Truthy | routes/product.js:85-115 | JavaScript's `if (x)` test: undefined, null, false, 0 and the empty text are falsy, everything else truthy. Its use is stated by `ProductRoutes.AssignLeadingFields`, `ProductRoutes.EmptyUpdateChangesNothing` and `ProductRoutes.CheckCategory`. |
| Mongo.CastId | routes/product.js:80 | An id casts exactly when it is 24 hexadecimal digits of either case, and casts to its lower-case form. |
| Mongo.CastStoredId | routes/auth.js:86 | A stored ObjectId casts to itself, so `findById(decoded._id)` reaches the user a token names. |
| Mongo.CastValue | routes/product.js:110 | Assigned to an ObjectId path, a text casts exactly as `CastId` casts it, and any other value does not cast. |
| Mongo.CastQuery | routes/product.js:106 | `findById` casts a text as the one id it spells and an array as `$in` over its elements, each cast as an id; it is a cast error exactly when the text, or some element, does not cast, or the value is neither a text nor an array. |
| Mongo.Find | routes/product.js:80 | `findById` returns a record with the key and no earlier one has it; it returns nothing exactly when no record has the key. |
| Mongo.FindIn | routes/product.js:106 | A `$in` lookup returns a record whose key is one of the ids and no earlier one has such a key; it returns nothing exactly when no record has one. |
| Mongo.FindInOne | routes/product.js:106 | `$in` over a single id finds exactly what looking that id up finds. |
| Mongo.FindUnique | models/user.js:17 | Under a unique index, the record `findOne` returns is the only one with the key. |
| Mongo.AppendUnique | models/category.js:10 | Inserting a record whose key is not yet taken keeps the index unique. |
| Mongo.FindAppend | routes/order.js:26 | After a record with a fresh key is saved, looking up that key returns the saved record. |
| Mongo.FindSameKeys | routes/auth.js:18 | A lookup by email sees only the emails: collections with equal keys at every position give the same result. |
| Mongo.ReplaceUnique | models/user.js:17 | Saving a record in place under its own key keeps the index unique. |
| Mongo.Where | routes/order.js:75-78 | `find(filter)` returns exactly the stored records that satisfy the filter, and no more records than are stored. |
| Mongo.WhereCount | routes/category.js:21 | The number of records `find(filter)` returns is the number of stored positions that match. |
| Mongo.DeleteFirst | routes/product.js:140 | `deleteOne` changes nothing when no record has the key; otherwise it removes the first record with the key and keeps the rest in order. |
| Mongo.DeleteFirstUnique | routes/product.js:140 | Under a unique key, deleting removes exactly the record with that key; every other record stays, and the key stays unique. |
| Mongo.DeleteFirstSubset | routes/category.js:103 | Deleting adds no record and keeps every other unique index unique. |
| Joi.LeafOk | models/product.js:58-69 | The rule of one non-object key: a text within its length bounds and format, a safe number within its bounds (a `Joi.ref` bound resolved among the siblings), or an array of such texts. Its meaning inside a schema is stated by `Joi.ValidateMeaning`. |
| Joi.Validate | models/product.js:56-73 | `schema.validate`: the first failing key in schema order, then an unknown key, else a pass. `Joi.ValidateMeaning` states that it passes exactly when `Accepts` holds. |
| Joi.ValidateMeaning | models/product.js:56-73 | `schema.validate` passes iff every key's rule holds and no unknown key is present. A rejection at a key means that key's rule fails and every earlier key's holds; a rejection of the object means an unknown key. |
| Joi.CheckKeysMeaning | models/product.js:57-70 | Keys are checked in schema order: all pass iff every rule holds, and a rejection names the first key whose rule fails. |
| Crypto.Hash | routes/auth.js:64-65 | `bcrypt.compare` accepts the hashed password and no other. |
| Crypto.Verify | routes/auth.js:85 | `jwt.verify` succeeds exactly for a token signed with that key, and returns its payload. |
| Crypto.Sign | models/user.js:51-55 | A signed token verifies under its key to its payload, and under no other key. |
| CategoryModel.NameOk | models/category.js:5-11 | A stored category name has 1 to 255 characters; `CategoryModel.NameBoundsAgree` ties it to the Joi bounds. |
| CategoryModel.CategoriesOk | models/category.js:4-14 | A stored collection: names in bounds, ObjectIds, unique ids and, by the unique index, unique names; kept by create, update and delete. |
| CategoryModel.ValidateCategoryMeaning | models/category.js:18-24 | `validateCategory` accepts exactly a body whose only key is `name`, a text of 1 to 255 characters; a missing name is rejected at `name`. |
| CategoryModel.NameBoundsAgree | models/category.js:5-11 | The Joi bounds and the schema bounds on a name agree: a name passes validation iff the schema admits it. |
| CategoryModel.NameBoundaries | models/category.js:20 | Names of 1 and 255 characters are accepted; names of 0 and 256 are rejected at `name`. |
| CategoryRoutes.ProductsIn | routes/category.js:13-18 | The `$lookup` gives exactly the stored products whose `category` is the category's id. |
| CategoryRoutes.ListCategories | routes/category.js:8-32 | One listing per category, in order: its products are exactly those that reference it, and `productCount` is their number. |
| CategoryRoutes.ProductCountCountsReferences | routes/category.js:22-24 | `productCount` equals the number of stored products whose `category` is that category's id. |
| CategoryRoutes.ProductsByCategory | routes/category.js:34-54 | One group per category, in category order, pairing its name with exactly the products that reference it. |
| CategoryRoutes.GroupsPartitionProducts | routes/category.js:40-48 | With distinct ids, a product is in its own category's group and in no other; a product whose category does not exist is in no group. |
| CategoryRoutes.CreateCategoryOutcome | routes/category.js:56-68 | Create succeeds iff the body validates and the name is not taken. Only the requested name is stored, under the new id, appended. Failures store nothing, and an invalid body is a 400 at its failing key. |
| CategoryRoutes.CreateCategoryKeepsCategoriesOk | models/category.js:4-14 | Create keeps the collection valid: names within bounds, ids and names unique. |
| CategoryRoutes.CreateCategory | routes/category.js:56-68 | The handler's reply and collection are the create outcome, and the collection stays valid. |
| CategoryRoutes.UpdateCategoryOutcome | routes/category.js:70-93 | A malformed id is a 500 and a missing category a 404, both before validation; an invalid body is a 400. A name another category holds breaks the unique index at save: a 500. Success holds exactly when the category exists, the body validates and no other category holds the name; then only that category's name changes, to the requested one. Failures store nothing. |
| CategoryRoutes.UpdateCategoryKeepsCategoriesOk | routes/category.js:81-83 | An update keeps the collection valid: the id is kept and the new name is in bounds and not used by another category. |
| CategoryRoutes.UpdateCategory | routes/category.js:70-93 | The handler's reply and collection are the update outcome, and the collection stays valid. |
| CategoryRoutes.DeleteCategoryOutcome | routes/category.js:95-112 | A malformed id is a 500 and a missing category a 404, both storing nothing. Delete succeeds exactly when the category exists. |
| CategoryRoutes.DeleteCategoryRemovesOnlyIt | routes/category.js:98-103 | A successful delete removes exactly the category with that id, keeps every other category, and keeps the collection valid. |
| CategoryRoutes.DeleteCategory | routes/category.js:95-112 | The handler's reply and collection are the delete outcome; the products, including those that referenced the category, are untouched. |
| CategoryRoutes.GetCategory | routes/category.js:114-130 | A malformed id is a 500. A 404 "Category not found" is sent iff no category has the id; the reply is a success iff the id casts and some stored category has it, and a success returns a stored category with that id. |
| CategoryRoutes.GetStoredCategory | routes/category.js:114-130 | In a valid collection, fetching a stored category by its own id returns that category. |
| ProductModel.TextsOf | models/product.js:37-40 | The `[String]` cast keeps the array's length and order, and an absent value gives the empty list. |
| ProductModel.NewProduct | routes/product.js:56-67 | A new product has the given id. An absent `tags` gives the empty list, and an absent discount or phone number leaves that path unset. |
| ProductModel.ProductSchemaValid | models/product.js:4-52 | What `product.save()` checks: title 1-255, price at least 0, the discount validator, the required texts non-empty and an ObjectId category; `ProductModel.DiscountComparedAtSave` and `ProductRoutes.ValidatedBodyBuildsValidProduct` state what it adds to validation. |
| ProductModel.ValidateAddProduct | models/product.js:56-73 | `validateAddProduct`; `ProductModel.ValidateAddProductMeaning` states which bodies it accepts. |
| ProductModel.ValidateUpdateProduct | models/product.js:75-90 | `validateUpdateProduct`; `ProductModel.ValidateUpdateProductMeaning` states which bodies it accepts. |
| ProductModel.ProductValidatorRules | models/product.js:56-90 | Both product validators accept exactly the bodies meeting every field rule; only the add validator requires its fields to be present. |
| ProductModel.ValidateAddProductMeaning | models/product.js:56-73 | `validateAddProduct` accepts exactly the bodies that meet all of these: title 1-255; price a number at least 0; discount any number; non-empty image, description and features; tags texts of 1-255; a 24-hex-digit category; optional phone numbers. Every number must be within ±(2^53-1). All required keys must be present and no other key may be. |
| ProductModel.ValidateUpdateProductMeaning | models/product.js:75-90 | `validateUpdateProduct` accepts exactly the bodies whose present fields obey the same rules; no field is required. |
| ProductModel.UpdateRulesAreAddRules | models/product.js:56-90 | Whatever add accepts, update accepts. A body update accepts is accepted by add once every field add requires is present. |
| ProductModel.DiscountNotComparedByValidators | models/product.js:56-90 | Neither validator compares the discount with the price: replacing the discount of an accepted body by any number within ±(2^53-1) keeps it accepted. |
| ProductModel.DiscountComparedAtSave | models/product.js:16-24 | At save, a product whose discount is not below its price breaks the schema. |
| ProductRoutes.SplitTags | routes/product.js:46-48 | A tags text gives one tag more than it has commas, each the trimmed piece at the same position. |
| ProductRoutes.SplitTagsOfJoined | routes/product.js:47 | Tags without commas and without white space at their ends, written comma-separated, are split back unchanged and in order. |
| ProductRoutes.NormalizeTags | routes/product.js:46-48 | A text `tags` is replaced by its split tags. Any other `tags` leaves the body unchanged, and every other key is kept. |
| ProductRoutes.Populate | routes/product.js:156 | The populated category is the stored category whose id the product references, and none exactly when no such category exists. |
| ProductRoutes.ListProducts | routes/product.js:25-35 | Every stored product, in order, each with its category populated. |
| ProductRoutes.GetProduct | routes/product.js:151-171 | A malformed id is a 500. A 404 "Product not found" is sent iff no product has the id; the reply is a success iff the id casts and some stored product has it, and a success returns the stored product with that id, populated. |
| ProductRoutes.GetStoredProduct | routes/product.js:151-171 | In a valid collection, fetching a stored product by its own id returns that product with its category populated. |
| ProductRoutes.CreateProductOutcome | routes/product.js:37-75 | No upload is a 404 before any other check. With an upload, the 400 "Tags must be an array of strings" is sent iff `tags` is neither a text nor an array; otherwise the outcome is the insert outcome of the prepared body. Success holds iff there is an upload, `tags` is a text or an array, the prepared body validates and the built product meets the schema. Every failure stores nothing; a success appends one product under the new id, with the normalised image path and a text `tags` split into tags. |
| ProductRoutes.InsertOutcome | routes/product.js:53-69 | Validation failure is a 400 at the failing key. Success, iff the body validates and the built product meets the schema, appends exactly the built product. |
| ProductRoutes.CreateFailsAtSaveOnlyOnDiscount | routes/product.js:53-69 | A create with an upload fails at save iff its body validated and its discount is not below its price. |
| ProductRoutes.ValidatedBodyBuildsValidProduct | models/product.js:4-52 | A product built from a validated body meets every schema rule except possibly the discount validator. |
| ProductRoutes.CreateProductKeepsProductsOk | models/product.js:4-52 | Create keeps the product collection valid: schema-valid products under distinct ids. |
| ProductRoutes.CreateProduct | routes/product.js:37-75 | The handler's reply and collection are the create outcome, and the collection stays valid. |
| ProductRoutes.InsertProduct | routes/product.js:53-69 | The validate, build and save steps give the insert outcome. |
| ProductRoutes.EmptyUpdateChangesNothing | routes/product.js:85-115 | A body with no truthy field and no upload leaves the stored product as it was. |
| ProductRoutes.CheckCategory | routes/product.js:105-111 | The category step is skipped iff the value is falsy, and is a cast error iff `findById` cannot cast the value. It passes only when a stored category has one of the cast ids, and reports a missing category only when none has. |
| ProductRoutes.CheckTextCategory | routes/product.js:105-108 | For a non-empty text `category`, the step is a cast error iff the text is no ObjectId, passes iff a category has that id, and otherwise reports it missing. |
| ProductRoutes.ArrayCategoryNeverSaved | routes/product.js:105-118 | An array `category` never gets saved and stores nothing. When one of its elements names a stored category, the lookup passes and `validateUpdateProduct` then rejects the body: a 400 at its failing key. |
| ProductRoutes.UpdateProductOutcome | routes/product.js:77-130 | A malformed id is a 500 and a missing product a 404. Once the product is found, the outcome is the found-product outcome whose branches `UpdateCheckOrder` fixes. Every failure stores nothing. A success validated the body, stores the merged product in place of the old one, and the merged product meets the schema. |
| ProductRoutes.UpdateFoundOutcome | routes/product.js:85-125 | Once the product is fetched, a success validated the body and replaces the product with the merged product, which meets the schema; any failure stores nothing. |
| ProductRoutes.SaveOutcome | routes/product.js:117-128 | Save succeeds iff the body validates and the assigned product meets the schema; it then replaces the product in place. |
| ProductRoutes.UpdateCheckOrder | routes/product.js:94-120 | The checks come in a fixed order: a non-array `tags` is a 400, then an uncastable category a 500, then a missing category a 400 "Invalid category.", then validation of the body, then save. None of these failures stores anything. |
| ProductRoutes.UpdateValidatesBodyNotMerged | routes/product.js:117-120 | The body, not the merged product, is validated: a discount alone, not below the stored price, passes validation and then fails at save with a 500. |
| ProductRoutes.DiscountOnlyBodyPasses | models/product.js:75-90 | A body holding only a numeric `discountPrice` passes `validateUpdateProduct` exactly when the number is within ±(2^53-1). |
| ProductRoutes.UpdateProductKeepsProductsOk | models/product.js:4-52 | Update keeps the product collection valid. |
| ProductRoutes.AssignLeadingFields | routes/product.js:85-93 | Title, price, discount, image, description and features are overwritten exactly when supplied truthy. |
| ProductRoutes.LeadingFieldsIgnoreTags | routes/product.js:94-96 | Rewriting `req.body.tags` does not change what the earlier assignments read. |
| ProductRoutes.AssignTagsAndCategory | routes/product.js:97-111 | A truthy non-array `tags` is a 400. Then a category `findById` cannot cast is a 500, and one whose cast ids name no category a 400 "Invalid category.". Otherwise `tags` and `category` are assigned exactly when truthy. |
| ProductRoutes.AssignPhoneNumbers | routes/product.js:112-115 | The two phone numbers are overwritten exactly when supplied truthy. |
| ProductRoutes.UpdateProduct | routes/product.js:77-130 | The handler's reply and collection are the update outcome, and the collection stays valid. |
| ProductRoutes.UpdateFound | routes/product.js:85-125 | The field-by-field assignments with their checks between them give the merged product and the update outcome. |
| ProductRoutes.SaveUpdate | routes/product.js:117-125 | Validate, then save, gives the save outcome. |
| ProductRoutes.DeleteProductOutcome | routes/product.js:132-149 | A malformed id is a 500 and a missing product a 404, both storing nothing. Delete succeeds exactly when the product exists. |
| ProductRoutes.DeleteProductRemovesOnlyIt | routes/product.js:135-140 | A successful delete removes exactly the product with that id, keeps every other product, and keeps the collection valid. |
| ProductRoutes.DeleteProduct | routes/product.js:132-149 | The handler's reply and collection are the delete outcome; the other collections are untouched. |
| OrderModel.CharOf | models/order.js:9 | A draw picks a character of the 62-character alphabet, at the index the draw scales to. |
| OrderModel.TransactionIdOf | models/order.js:4-12 | The id has one character per draw, each from the alphabet. |
| OrderModel.TransactionIdChars | models/order.js:8-10 | Each character of the id comes from the draw at the same position. |
| OrderModel.GenerateTransactionId | models/order.js:4-12 | The generator returns exactly 8 characters, all from the alphabet: the id of its draws. |
| OrderModel.EveryIdReachable | models/order.js:5-9 | Every string over the alphabet is the id of some draws, so the generator can produce any of the 62^8 ids. |
| OrderModel.ShippingAddressMeaning | models/order.js:73-79 | The nested rule accepts exactly this address: first and last name and an email-shaped email required, address and phone number optional, no other key. |
| OrderModel.OrderKeyRules | models/order.js:67-80 | Each key rule of `validateOrder`: a price at least 0; a discount absent, null, or from 0 to below the price; every number within ±(2^53-1); non-empty user, payment and payment transaction id; a valid shipping address. |
| OrderModel.OrderDiscountOk | models/order.js:21-29 | The discount validator: an unset discount passes, a null one is compared as 0, a number must be below the price; `OrderRoutes.NullDiscountAtZeroPrice` states the null case. |
| OrderModel.OrderSchemaValid | models/order.js:14-64 | What `order.save()` checks: price at least 0, the discount validator, an ObjectId user and the required texts; `OrderRoutes.CreateOrderOutcome` ties success to it. |
| OrderModel.ValidateOrder | models/order.js:66-83 | `validateOrder`; `OrderModel.ValidateOrderMeaning` states which bodies it accepts. |
| OrderModel.ValidateOrderMeaning | models/order.js:66-83 | `validateOrder` accepts exactly the bodies that obey every key rule and carry no other key. |
| OrderRoutes.ViewOrder | routes/order.js:26 | `populate("user", "name email")` gives the id, name and email of the stored user the order references, and none exactly when no such user exists. |
| OrderRoutes.ViewOrders | routes/order.js:62 | One populated view per order, in order. |
| OrderRoutes.DiscountOf | models/order.js:21-29 | The stored discount is unset exactly for an absent value and null exactly for a null value. |
| OrderRoutes.BuildOrder | routes/order.js:13-22 | The order takes only the picked fields, plus the generated transaction id. A `user` that is no ObjectId is not stored as one. |
| OrderRoutes.CreateOrderOutcome | routes/order.js:7-33 | An invalid body is a 400 at its failing key. Success holds iff the body validates, the built order meets its schema and its transaction id is not taken; the handler throws iff the body validates and one of the last two fails. A success appends the built order and returns it populated. Every failure stores nothing. |
| OrderRoutes.OrdersOkAppend | models/order.js:46-51 | Saving a schema-valid order under a fresh id and transaction id keeps ids and transaction ids unique. |
| OrderRoutes.CreateOrderKeepsOrdersOk | models/order.js:14-64 | Create keeps the order collection valid. |
| OrderRoutes.CreateOrder | routes/order.js:7-33 | The handler generates the id, saves, and re-reads the stored order by its id. Its reply and collection are the create outcome, and the collection stays valid. |
| OrderRoutes.TransactionIdNotFromBody | routes/order.js:13-22 | A body naming `transactionId` is rejected and stores nothing, so a stored transaction id is always a generated one. |
| OrderRoutes.NullDiscountAtZeroPrice | models/order.js:21-29 | A null discount passes `validateOrder`, but the save compares it as 0: with price 0 the create throws. |
| OrderRoutes.GetOrder | routes/order.js:35-57 | A malformed id is a 500. A 404 "Order not found" is sent iff no order has the id; the reply is a success iff the id casts and some stored order has it, and a success returns the stored order with that id, populated. |
| OrderRoutes.GetStoredOrder | routes/order.js:35-57 | In a valid collection, fetching a stored order by its own id returns that order with its user populated. |
| OrderRoutes.ListOrders | routes/order.js:59-69 | Every stored order, in stored order, each with its user populated exactly when the referenced user exists. |
| OrderRoutes.OrdersOf | routes/order.js:75-78 | `find({ user })` gives exactly the stored orders of that user. |
| OrderRoutes.OrdersForUser | routes/order.js:71-87 | A malformed user id throws. A 404 "No orders found for this user" is sent iff the user has no order; the reply is a success iff the id casts and some stored order belongs to that user, and then it is the user's orders, populated. |
| OrderRoutes.OrdersForUserExact | routes/order.js:75-85 | The orders sent are exactly the user's orders. |
| UserModel.RoleName | models/user.js:25-29 | A role is stored as one of "customer", "admin", "moderator". |
| UserModel.RoleOf | models/user.js:27 | Exactly the three enum names denote a role, and each denotes the role stored under that name. |
| UserModel.GenderOf | models/user.js:42 | Exactly "Male", "Female" and "Other" denote a gender. |
| UserModel.NewUser | models/user.js:25-34 | A new user has the given id, name, email and hash, role "customer", is not verified, and has no phone, gender or orders. |
| UserModel.UserSchemaValid | models/user.js:5-48 | A stored user's name and email have 1 to 255 characters and a phone 1 to 20; `AuthRoutes.SignupKeepsUsersOk` and `AuthRoutes.ResetPasswordKeepsUsersOk` show the handlers keep it. |
| UserModel.ValidateUserSignUpMeaning | models/user.js:70-80 | Signup validation accepts exactly: name 1-255 and email-shaped email 1-255 required; password 5-255, phone and gender 1-255 optional; no other key. |
| UserModel.ValidateUserLoginMeaning | models/user.js:82-89 | Login validation accepts exactly an email-shaped email and a password, both 5-255, and no other key. |
| UserModel.ValidateForgotPasswordMeaning | models/user.js:91-97 | Forgot-password validation accepts exactly a body whose only key is an email-shaped email of 5-255. |
| UserModel.ValidateResetPasswordMeaning | models/user.js:99-105 | Reset validation accepts exactly a body whose only key is a password of 5-255. |
| UserModel.GenerateAuthToken | models/user.js:50-57 | The auth token carries the user's id and role under `JWT_PRIVATE_KEY`, and the refresh key refuses it. |
| UserModel.GenerateRefreshToken | models/user.js:59-66 | The refresh token carries the same claims under `JWT_REFRESH_TOKEN_PRIVATE_KEY`, and `JWT_PRIVATE_KEY` refuses it. |
| AuthRoutes.SignupOutcome | routes/auth.js:53-74 | An invalid body is a 400, and a registered email a 400 "User already registered". Success, iff the body validates, the email is new and a password is given, adds exactly one user holding the hash of the password. Failures store nothing. |
| AuthRoutes.UsersOkAppend | models/user.js:5-48 | Saving a schema-valid user under a fresh id and an unregistered email keeps ids and emails unique. |
| AuthRoutes.SignupKeepsUsersOk | models/user.js:5-48 | Signup keeps the user collection valid. |
| AuthRoutes.Signup | routes/auth.js:53-74 | The handler's reply and collection are the signup outcome, and the collection stays valid. |
| AuthRoutes.Login | routes/auth.js:12-51 | An invalid body is a 400. Every other failure is the same 400 "Invalide email or password". A success returns the id, name, email and two tokens of a user with that email whose hash matches the password. |
| AuthRoutes.LoginSucceedsIffCredentialsMatch | routes/auth.js:18-28 | With unique emails, login succeeds iff the body validates and some user has that email and that password. |
| AuthRoutes.LoginIgnoresVerified | routes/auth.js:30-36 | Login does not depend on `verified`: changing any user's flag changes no login reply. |
| AuthRoutes.TokenUser | routes/auth.js:85-86 | The token verifies under `JWT_PRIVATE_KEY`, its id casts, and the user found has that id; nothing is found exactly when one of these fails or no user has the id. |
| AuthRoutes.VerifyEmailOutcome | routes/auth.js:76-96 | No token is a 401. A token that does not verify or names no user is a 400 "Invalide token". Success, exactly when the token names a user, sets that user's `verified`. |
| AuthRoutes.UsersOkReplace | models/user.js:5-48 | Changing a user's fields other than id and email keeps the collection valid. |
| AuthRoutes.VerifyEmailChangesOnlyFlag | routes/auth.js:86-88 | Verification changes no field other than `verified`, keeps every user in place, and keeps the collection valid. |
| AuthRoutes.VerifyEmail | routes/auth.js:76-96 | The handler's reply and collection are the verification outcome, and the collection stays valid. |
| AuthRoutes.ForgotPassword | routes/auth.js:98-114 | An invalid body is a 400, and an unknown email a 400 "User not found with this given email". The reply is a success iff the body validates and some stored user has the email. A reset email is requested exactly on success: to that user, with a token of their id under `JWT_PRIVATE_KEY`. |
| AuthRoutes.ForgotPasswordOfStoredUser | routes/auth.js:98-114 | With unique emails, a valid request naming a stored user's email succeeds and requests the reset email to that user, with a token of their id. |
| AuthRoutes.ResetPasswordForm | routes/auth.js:116-135 | No token is a 401. The form is rendered, with the token, exactly when the token verifies; otherwise the reply is a 400 "Invalid token". |
| AuthRoutes.ResetPasswordOutcome | routes/auth.js:137-166 | The body is validated before the token: then no token is a 401, and a bad token or missing user a 400 "Invalid token". Success replaces that user's hash with the new password's and sets `verified`. Failures store nothing. |
| AuthRoutes.ResetPasswordKeepsUsersOk | models/user.js:5-48 | Reset keeps the user collection valid. |
| AuthRoutes.ResetPassword | routes/auth.js:137-166 | The handler's reply and collection are the reset outcome, and the collection stays valid. |
| AuthRoutes.SignedTokenNamesUser | routes/auth.js:151-153 | A token of a stored user's id under `JWT_PRIVATE_KEY` finds that user. |
| AuthRoutes.AuthTokenVerifiesEmail | routes/auth.js:85 | A login token is accepted as an email-verification token, because both use `JWT_PRIVATE_KEY`; a refresh token is refused with a 400 and changes nothing. |
| AuthRoutes.SignupThenLogin | routes/auth.js:60-67 | After a successful signup, logging in with the same email and password succeeds as the new user. |
| AuthRoutes.ForgotResetLogin | routes/auth.js:150-159 | The token in the reset email resets that user's password, and afterwards the new password logs in. |

## Left out

- Email dispatch (`utils/SendEmail.js`) is not part of this model: forgot-password returns the reset email it requests as a value, and the verification email is disabled in the code.
- Server start-up (`index.js`), CORS and static files are not part of this model.
- The Express framework, `asyncMiddleware` and the middleware it stands for are not part of this model: an exception that leaves a handler is `Thrown`, whatever answers it.
- The `:token` route parameter is an `Option`; Express never routes an empty parameter to these handlers, so the 401 branch is modelled but unreachable there.
- Multer's disk storage and its `Date.now()` file names: the upload is the stored path, or none.
- New ObjectIds are parameters (`newId`), fresh by precondition; timestamps and the order `date` default are clock values and are not modelled.
- bcrypt is an ideal hash: the salt is a parameter, and bcrypt's 72-byte truncation and its cost are not modelled.
- JWT signatures are ideal; token expiry is not modelled.
- Joi's `.email()` check is a parameter `isEmail`. Joi's error messages are reduced to the path of the failing key.
- Joi.Validate: an unknown key is reported at the path of the object holding it (`[]` at the top level, `["shippingAddress"]` when nested), where Joi names the unknown key itself (`["foo"]`). A body is a map with no key order, so the model cannot tell which unknown key Joi meets first. Whether a body is rejected, and at which schema key, is exact.
- Joi.LeafOk: numbers are exact reals, not IEEE doubles. The range half of Joi's `number.unsafe` error is modelled (a value beyond ±(2^53-1) is rejected). The precision half is not: a numeric text that changes when converted to a double and back, such as "1.00000000000000001", is accepted.
- Js.AsNumber: converts numeric text exactly, without rounding to the nearest double.
- Joi.TextOk: `.min`/`.max` lengths are counted in characters (Unicode scalar values), not UTF-16 code units as JavaScript's `.length` counts them. The two differ only for characters outside the Basic Multilingual Plane, which JavaScript counts twice: 128 emoji count as 128 here, not 256.
- CategoryModel.NameOk: Mongoose's `minlength`/`maxlength` on a name are counted in characters, not UTF-16 code units, as for `Joi.TextOk`.
- UserModel.UserSchemaValid: the `minlength`/`maxlength` bounds are counted in characters, not UTF-16 code units, as for `Joi.TextOk`.
- ProductModel.ProductSchemaValid: the title's `minlength`/`maxlength` are counted in characters, not UTF-16 code units, as for `Joi.TextOk`.
- Mongo.CastQuery: a `category` that is an object, a number or a boolean is taken as a cast error (a 500). Mongoose may instead run an object such as `{"$ne": null}` as a query operator, or build an ObjectId from a number; the reply would then be the lookup's 400 or the validation's 400 at `category`. Either way nothing is stored.
- Js.NumberText: `Joi.number()` and Mongoose's Number cast of text are modelled only for `[+-]digits[.digits]`; exponents, hexadecimal, surrounding white space, `Infinity` and NaN are not. The function has no contract of its own; `NumberTextOfDigits` and `NumberTextHasDigit` state its meaning.
- ProductRoutes.MergeUpdate: no contract of its own. `EmptyUpdateChangesNothing`, the three `Assign…` methods and `UpdateFound` state what it assigns.
- MongoDB's `$lookup`, `populate` and `aggregate` are modelled by their results, as filters and counts. `Promise.all` over the categories is a sequential map.
- Concurrency: uniqueness races are not modelled; a unique index is a check at save.
- The `user.save()` in email verification is not awaited; it is taken to be applied.
- EJS rendering: the reset form is `Ok(token)` and the confirmation page `Ok(())`.
- AuthRoutes.Login: the "succeeds iff credentials match" property holds only while emails are unique, as the index keeps them (`LoginSucceedsIffCredentialsMatch` requires it).
- A Mongoose String cast of a non-text value never reaches a save after validation; it is held as "".
