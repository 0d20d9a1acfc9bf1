# go-hexagonal-products in Dafny

This project models the core of go-hexagonal-products, a small shop back end built in the
hexagonal ("ports and adapters") style. The Go module is
github.com/mitrovicsoftcoder/go-hexagonal-framework. The model covers:

- **Order workflow** (`OrderService`). Creating an order forces its status to "CREATED". It
  then walks the order's lines in input order. For each line the product must exist, the
  quantity must be positive and the quantity must not exceed the stock. The lowered stock is
  written back at once. The order header is written only after every line has passed.
  Updating an order's status first checks the status against a fixed set, then repeats the
  same walk. Deleting an order gives no stock back. Nothing is atomic: a later failure leaves
  the earlier decrements in place. `Stock` states the walk as a left fold (`Reserve`) and
  proves what it promises.
- **Repositories.** Categories, products, orders, order lines and users are stored in
  in-memory tables (`Store.Database`). Each table is a map from id to row, or a sequence for
  the order-line table, whose key is (order id, product id): a second line for the same
  product in the same order is refused. Ids are fresh serials. "Rows affected" is 0 or 1. The
  errors are the ones the SQL driver would report: a closed connection, a violated unique or
  foreign key, no rows. The store also maps each statement the server rejects
  (`Store.Statement`) to the error it gives: a product's UPDATE, an order line's INSERT or
  DELETE, an order header's INSERT, UPDATE or DELETE. This is how the loops reach their
  failures part-way: the "error updating product quantity" branch of the stock walk, a
  header write refused after the walk has lowered the stock, a line add that fails after
  the header and earlier lines are written, and a line or header delete that fails after
  earlier lines are gone.
- **Thin services.** The category, product and user services delegate to the repositories
  and wrap errors with `errors.Wrap`. The category service also refuses a category with an
  empty name.
- **DTO conversions.** The JSON models of category, product, user and order, with their
  `FromDomain`/`ToDomain` conversions and round trips.
- **Server helpers:**
  - the shape of the JWT `Authorization` header;
  - path parameters carried in the request context;
  - query-parameter defaults and required-parameter errors;
  - the `UserError` constructors and their HTTP status codes: section 15.5 and section 15.6
    of RFC 9110, 425 from section 5.2 of RFC 8470, 451 from section 3 of RFC 7725.
- **Database helpers.** The commit-or-rollback decision of `TxHandler`, migration-file
  discovery, ordered execution of migrations in one transaction, and the empty-name guard of
  `DropSchema`.

How Go is modelled:

- A Go `error` is the datatype `Base.Error`. `errors.Wrap` becomes `Wrapped` and `errors.Is`
  becomes `Is`.
- A `(*T, error)` result becomes `Result<T>`. An `(int64, error)` result keeps both halves.
- Objects the code changes in place are classes: `Order`, `User`, the DTO models, the
  repositories, `Tx`, `Database`.
- The current time is a `now` parameter. There is one per operation.
- The driver's answers are part of the state: `Database.connected`, the rejected statements
  `Database.rejected`, the rollback and commit failures of `Tx`, and the statements that
  fail (`Tx.failingFiles`, `Connection.failing`). A connection stays up or down for a whole
  call, so a lost connection fails the call's first statement. A statement the server
  rejects fails wherever it comes in the call.

Where the code does not compile, each function is modelled as written in its own file:

- `NewOrderService` takes three repositories (internal/core/usecases/order.go:22), but its
  callers pass two.
- `order_repo.go:61` passes a quantity to `Add`, which takes none. The model adds the row
  without a quantity, as `Add` does. The quantity column then takes its default.
- `order_repo.go:90` calls an `OrderProductRepository.Delete` that is not defined. The model
  supplies one that deletes the rows of that product in that order.
- `handlers/order/http.go:49` sets a `User` field that `OrderModel` lacks. The model keeps
  `OrderModel` without a user.

## Model

| member | source | states |
|---|---|---|
| Stock.ReserveKeepsRows | internal/core/usecases/order.go:47-51 | the stock walk keeps every product row and changes only its quantity and updated_at |
| Stock.ReserveKeepsStockNonNegative | internal/core/usecases/order.go:47-50 | stock never goes negative: the check at line 47 guards the subtraction |
| Stock.ReserveStopsAtFailure | internal/core/usecases/order.go:39-55 | once a line has failed, later lines change nothing; the earlier decrements stay |
| Stock.FailingLineKeepsEarlierDecrements | internal/core/usecases/order.go:39-55 | a failing line leaves the table exactly as the lines before it left it |
| Stock.FitsExtend | internal/core/usecases/order.go:39-55 | the lines pass exactly when all but the last pass and the last passes after them |
| Stock.ReserveSucceedsIffFits | internal/core/usecases/order.go:39-55 | the walk succeeds iff every line's product exists with its category, its quantity is positive, the demand so far is within stock and the server accepts the product's UPDATE; on success each stock is the old stock minus the total demand |
| OrderService.OrderService.constructor | internal/core/usecases/order.go:22-28 | the service keeps the three repositories it is given |
| OrderService.OrderService.DecrementLine | internal/core/usecases/order.go:40-54 | one line leaves the product table and the error as `Stock.Step` says: "product doesn't exist", then "invalid order", then "not enough items", then "error updating product quantity" when the server rejects the UPDATE; otherwise the row has the lowered stock |
| OrderService.OrderService.DecrementStock | internal/core/usecases/order.go:39-55 | the loop leaves the product table as `Reserve` says and returns its failure: "product doesn't exist" before "invalid order" before "not enough items" before "error updating product quantity" |
| OrderService.OrderService.FindOrderById | internal/core/usecases/order.go:30-36 | the repository's order, or its error wrapped with "failed to retrieve an product" |
| OrderService.OrderService.WriteOrder | internal/core/usecases/order.go:56-60 | the repository writes the header under a fresh key with status "CREATED", unless the server refuses the header INSERT, whose error comes back wrapped with "failed to create an order" and nothing is written; any repository error comes back wrapped the same way |
| OrderService.OrderService.CreateOrder | internal/core/usecases/order.go:37-61 | status forced to "CREATED"; the stock table ends as `Reserve` says; a failing line returns its error and writes no header; a refused header INSERT returns its error wrapped with "failed to create an order", with the stock left lowered and no header; otherwise a header with status "CREATED" under a fresh key |
| OrderService.OrderService.UpdateOrderStatus | internal/core/usecases/order.go:62-89 | a status outside {"", CREATED, PENDING, COMPLETED, CLOSED} fails with "invalid order status" and changes nothing; otherwise the stock walk; after a passing walk, a refused header UPDATE returns its error wrapped with "failed to update an order", with the stock left lowered and the header and UpdatedAt untouched; otherwise only status and updated_at of the header change |
| OrderService.HeaderWriteRefusedAfterWalk | internal/core/usecases/order.go:39-60 | with only the order's header INSERT or UPDATE rejected, a one-line order with enough stock passes the walk, lowering the stock, and the header write is then refused |
| OrderService.OrderService.DeleteOrder | internal/core/usecases/order.go:91-97 | delegates to the repository, wraps its error (a part-way failure included), and never changes product stock |
| Store.Answer | internal/repo/order_repo.go:61-63 | a statement succeeds iff the connection is up and the server does not reject it; a lost connection answers sql.ErrConnDone |
| Store.FirstRejected | internal/repo/order_repo.go:89-94 | the first statement the server does not accept, where a loop that returns at the first error stops: every earlier statement is accepted |
| OrderRepo.AddedRows | internal/repo/order_repo.go:60-65 | one line row per item, in item order, with the quantity column's default |
| OrderRepo.LinesOfAddedRows | internal/repo/order_repo.go:60-76 | the lines written for an order are exactly the lines read back for it |
| OrderRepo.ReadBackLosesQuantities | internal/repo/order_repo.go:60-76 | a new order reads back its items with the default quantity in place of each quantity |
| OrderRepo.KeptThenWithout | internal/repo/order_repo.go:88-94 | deleting one more product's lines extends the set of deleted products |
| OrderRepo.DeleteNextProduct | internal/repo/order_repo.go:88-94 | after the lines of the first i items are deleted, deleting item i's lines leaves the table without the lines of the first i + 1 items |
| OrderRepo.OrderRepository.constructor | internal/repo/order_repo.go:22-28 | the repository's order-product and user repositories share its store |
| OrderRepo.OrderRepository.FindOrderById | internal/repo/order_repo.go:30-52 | "order not found" for a missing header; success iff every line's product and the user can be found; the order carries the header's fields, its lines in table order and its user |
| OrderRepo.FirstRefusedAddFrom | internal/repo/order_repo.go:60-64 | the first item, from a given position on, whose add is refused once the earlier items' rows are in; every add before it is accepted |
| OrderRepo.FirstRefusedAdd | internal/repo/order_repo.go:60-64 | where the add loop stops: every earlier add, each seeing the rows of the items before it, is accepted, and the add there is refused |
| OrderRepo.RepeatedProductStopsAdd | internal/repo/order_repo.go:60-64 | an order listing a product at two positions never adds lines past the second one, because the first line is already in the table |
| OrderRepo.RepeatedProductRefused | internal/repo/order_repo.go:60-64 | an order listing one product twice adds the first line, and the second add fails with the driver's duplicate-key error |
| OrderRepo.OrderRepository.InsertHeader | internal/repo/order_repo.go:54-59 | status forced to "CREATED"; the server's answer to the header INSERT is returned; when accepted, the header is stored under a fresh key, which is written back into the order with the timestamps, and otherwise nothing else changes |
| OrderRepo.OrderRepository.AddLines | internal/repo/order_repo.go:60-65 | one row per item, in item order, up to the first add refused by the server or by the line key; that add's error is returned and the earlier rows stay written |
| OrderRepo.OrderRepository.ReadBack | internal/repo/order_repo.go:66-76 | the order's lines and user are re-read into it; on failure they are left as they were |
| OrderRepo.OrderRepository.CreateOrder | internal/repo/order_repo.go:53-77 | status "CREATED"; a refused header INSERT returns its error and writes nothing; otherwise a fresh id, one line per item up to the first refused add (whose error is returned with the header and earlier lines left written), and otherwise the items re-read from the line table (losing their quantities for a new id) |
| OrderRepo.OrderRepository.UpdateOrderStatus | internal/repo/order_repo.go:78-86 | a refused UPDATE returns its error and changes neither the header nor the order; otherwise only status and updated_at of the header with the order's id change, and the same order is returned with UpdatedAt set |
| OrderRepo.OrderRepository.DeleteLines | internal/repo/order_repo.go:89-94 | the lines of one product per item are deleted in item order, up to the first delete the server refuses; that delete's error is returned and the earlier deletions stay |
| OrderRepo.OrderRepository.DeleteOrder | internal/repo/order_repo.go:88-100 | the lines of the listed products are removed in order up to the first refused delete, whose error is returned with the header and later lines left; the header goes only when every statement is accepted |
| OrderRepo.SecondLineInsertRejected | internal/repo/order_repo.go:60-64 | with only the second item's insert refused, and no line yet for the first, the add loop stops after the first item's row |
| OrderRepo.SecondLineDeleteRejected | internal/repo/order_repo.go:89-93 | with only the second item's delete refused, the delete loop stops after the first product's lines are gone |
| OrderProductRepo.LinesOf | internal/repo/orderproduct_repo.go:27 | exactly the rows of that order, in table order |
| OrderProductRepo.LinesOfAppend | internal/repo/orderproduct_repo.go:27 | selecting an order's rows commutes with appending rows |
| OrderProductRepo.LinesOfOwnRows | internal/repo/orderproduct_repo.go:27 | a table holding only rows of one order is selected whole, in order |
| OrderProductRepo.Without | internal/repo/orderproduct_repo.go:25-56 | exactly the rows other than that product's rows in that order (the statement `Delete` implies) |
| OrderProductRepo.GetProductsAsWritten | internal/repo/orderproduct_repo.go:42-45 | the loop as written: the first found product ends in a nil-pointer panic |
| OrderProductRepo.GetProductsAsWrittenPanics | internal/repo/orderproduct_repo.go:38-45 | every order whose first line names an existing product panics |
| OrderProductRepo.GetProductsCounterexample | internal/repo/orderproduct_repo.go:42-45 | a one-line order that panics as written and reads back as corrected |
| OrderProductRepo.OrderProductRepository.GetProducts | internal/repo/orderproduct_repo.go:25-48 | succeeds iff every line's product can be found; each item is the product's id and the row's quantity, in row order; otherwise the first failing lookup's error |
| OrderProductRepo.LineInsertAnswer | internal/repo/orderproduct_repo.go:50-56 | a line insert succeeds iff the server accepts the statement and the order has no line for that product yet; a duplicate is refused with the violation of order_product_pkey |
| OrderProductRepo.OrderProductRepository.Add | internal/repo/orderproduct_repo.go:50-56 | the server's answer to the insert, a duplicate line included; when accepted, exactly one row (orderId, productId) is appended with no quantity written, and otherwise nothing changes |
| OrderProductRepo.OrderProductRepository.Delete | internal/repo/order_repo.go:90 | the server's answer to the delete; when accepted, removes that product's rows in that order and nothing else, and otherwise nothing changes |
| ProductRepo.Lookup | internal/repo/product_repo.go:50-67 | success iff the row and its category exist; "product not found" for a missing id; the category's error for a missing category; the product carries every stored field |
| ProductRepo.ProductRepository.GetAllProducts | internal/repo/product_repo.go:27-48 | every stored product exactly once, as FindProductById returns it; fails if any product's category is gone |
| ProductRepo.ProductRepository.FindProductById | internal/repo/product_repo.go:50-67 | "product not found" for an absent id; a found product matches its row |
| ProductRepo.ProductRepository.InsertProduct | internal/repo/product_repo.go:69-78 | a fresh id of at least 1 holding every field; a missing category violates the foreign key and inserts nothing |
| ProductRepo.ProductRepository.DeleteProduct | internal/repo/product_repo.go:80-91 | removes the row; rows affected is 1 if it was there and 0 otherwise |
| ProductRepo.ProductRepository.UpdateProduct | internal/repo/product_repo.go:93-106 | overwrites every field, quantity included, of the row keyed by the id argument; rows affected is 1 or 0; a statement the server rejects returns its error and changes nothing |
| CategoryRepo.Lookup | internal/repo/category_repo.go:43-59 | success iff the id is stored; "Category not found" otherwise |
| CategoryRepo.CategoryRepository.GetAllCategories | internal/repo/category_repo.go:26-41 | every stored category exactly once |
| CategoryRepo.CategoryRepository.FindCategoryById | internal/repo/category_repo.go:43-59 | the stored category, or "Category not found" |
| CategoryRepo.CategoryRepository.InsertCategory | internal/repo/category_repo.go:61-70 | a fresh id for a new row with the category's name |
| CategoryRepo.CategoryRepository.DeleteCategory | internal/repo/category_repo.go:72-83 | removes the row; rows affected is 1 or 0 |
| CategoryRepo.CategoryRepository.UpdateCategory | internal/repo/category_repo.go:85-97 | only name and updated_at of the keyed row change; rows affected is 1 or 0 |
| UserRepo.DuplicateNamesEmailKey | internal/repo/user_repo.go:35-37 | the unique-violation message names user_email_key, so it is reported as a duplicate email |
| UserRepo.ConnDoneNamesNoEmailKey | internal/repo/user_repo.go:35-39 | the connection error's message does not name user_email_key, so it is returned as it is |
| UserRepo.UserRepository.InsertRow | internal/repo/user_repo.go:32-34 | the INSERT fails with the connection error or the user_email_key violation and changes nothing, or adds the row under a fresh key |
| UserRepo.UserRepository.Insert | internal/repo/user_repo.go:31-44 | an email already stored fails with "email already exists" and adds nothing; otherwise a new row under a fresh key, after which the email is taken |
| UserRepo.UserRepository.Update | internal/repo/user_repo.go:46-60 | only first_name and surname change; the stored email is written back into the user; sql.ErrNoRows for a missing id |
| UserRepo.UserRepository.FindByID | internal/repo/user_repo.go:62-76 | "user not found" for an absent id; otherwise a new user with the stored fields |
| UserRepo.UserRepository.FindByEmail | internal/repo/user_repo.go:78-93 | "user not found" for an absent email; otherwise the one user with that email |
| CategoryService.CategoryService.GetAllCategories | internal/core/usecases/category.go:24-30 | the repository's list, or its error wrapped |
| CategoryService.CategoryService.FindCategoryById | internal/core/usecases/category.go:31-37 | the repository's category, or its error wrapped |
| CategoryService.CategoryService.CreateCategory | internal/core/usecases/category.go:38-47 | an empty name fails before the repository is touched; otherwise the new id, or 0 and the wrapped error |
| CategoryService.CategoryService.DeleteCategory | internal/core/usecases/category.go:48-54 | rows affected, or 0 and the wrapped error |
| CategoryService.CategoryService.UpdateCategory | internal/core/usecases/category.go:55-61 | rows affected, or 0 and the wrapped error; on success only name and updated_at of the keyed row change |
| ProductService.ProductService.GetAllProducts | internal/core/usecases/product.go:24-30 | the repository's list, or its error wrapped |
| ProductService.ProductService.FindProductById | internal/core/usecases/product.go:31-37 | the repository's product, or its error wrapped |
| ProductService.ProductService.CreateProduct | internal/core/usecases/product.go:38-44 | the new id, or 0 and the wrapped error; a missing category fails |
| ProductService.ProductService.DeleteProduct | internal/core/usecases/product.go:45-51 | rows affected, or 0 and the wrapped error |
| ProductService.ProductService.UpdateProduct | internal/core/usecases/product.go:52-58 | rows affected, or 0 and the wrapped error, a rejected statement's included; on success the keyed row is overwritten |
| Base.WrapKeepsCause | internal/core/usecases/user.go:25-31 | wrapping keeps the cause identifiable with errors.Is and prefixes the context to the message |
| UserService.UserService.RegisterUser | internal/core/usecases/user.go:25-31 | the error is the repository's wrapped; it is a duplicate email (by errors.Is) iff the email was stored; after success the email can be found |
| UserService.UserService.FindByID | internal/core/usecases/user.go:33-40 | the user, or the wrapped error |
| UserService.UserService.FindByEmail | internal/core/usecases/user.go:42-49 | the user with that email, or the wrapped error |
| UserService.UserService.Update | internal/core/usecases/user.go:51-57 | the repository's Update, its error not wrapped |
| CategoryModel.CategoryModel.FromDomain | internal/handlers/category/model.go:16-24 | copies the four fields, so converting back gives the category; a nil category is a no-op |
| CategoryModel.CategoryModel.ToDomain | internal/handlers/category/model.go:26-37 | copies the four fields back; a nil model gives the zero category |
| ProductModel.ProductModel.FromDomain | internal/handlers/product/model.go:22-38 | copies every field; converting back gives the product when it has a category, and the zero category in place of a nil one |
| ProductModel.ProductModel.ToDomain | internal/handlers/product/model.go:40-55 | copies every field back, always with a category; a nil model gives the zero product |
| UserModel.UserModel.FromDomain | internal/handlers/user/model.go:19-31 | copies every field but the password hash, which keeps its old value |
| UserModel.UserModel.ToDomain | internal/handlers/user/model.go:33-46 | a new user with every field, the password hash included |
| UserModel.UserModel.RoundTrip | internal/handlers/user/model.go:19-46 | through a new model and back, a user keeps every field but comes back with an empty password hash |
| OrderModel.LineFromDomain | internal/handlers/order/model.go:57-63 | copies product id and quantity; a nil line is a no-op |
| OrderModel.LineToDomain | internal/handlers/order/model.go:65-73 | converting back through a new line model gives the model |
| OrderModel.LinesOfLineModels | internal/handlers/order/model.go:22-55 | lines converted to models and back are the same lines |
| OrderModel.OrderModel.FromDomain | internal/handlers/order/model.go:22-37 | copies id, status and timestamps, and the lines one for one, in order; a nil order is a no-op |
| OrderModel.OrderModel.ToDomain | internal/handlers/order/model.go:39-55 | a new order with the model's fields and lines and no user |
| OrderModel.OrderModel.RoundTrip | internal/handlers/order/model.go:22-55 | through a new model and back, an order keeps id, status, timestamps and lines, and loses its user |
| Jwt.WrapJWTHeader | internal/server/auth/jwt.go:50-52 | "Bearer " followed by the token |
| Jwt.UnwrapJWTHeader | internal/server/auth/jwt.go:55-57 | the second space-separated field; the header must contain a space |
| Jwt.UnwrapWrap | internal/server/auth/jwt.go:50-57 | unwrapping a wrapped token without spaces gives the token |
| Jwt.PrefixedHeaderHasToken | internal/server/auth/jwt.go:61-68 | a header with the prefix splits into at least two fields, so the field-count check never rejects |
| Jwt.IsJWTHeaderValidAsWritten | internal/server/auth/jwt.go:60-76 | the check as written: a token of fewer than three dot-parts indexes out of range |
| Jwt.IsJWTHeaderValidCounterexample | internal/server/auth/jwt.go:70-73 | "Bearer abc" passes the prefix check and then panics |
| Jwt.IsJWTHeaderValid | internal/server/auth/jwt.go:60-76 | false without the "Bearer " prefix; otherwise the signature check on the first two parts joined by "." against the third part |
| Jwt.CorrectedAgreesWhereWrittenReturns | internal/server/auth/jwt.go:60-76 | the corrected check answers as the code does wherever the code does not panic |
| Jwt.WrappedTokenValidity | internal/server/auth/jwt.go:60-76 | a wrapped three-part token is valid iff its signature verifies against header and payload |
| Params.AssignedIsLastOccurrence | internal/server/params/params.go:73-80 | a key is in the map iff some parameter has it, and it maps to the value of its last occurrence |
| Params.ParamsToMap | internal/server/params/params.go:73-80 | the loop builds the map in which each key holds its last occurrence's value |
| Params.From | internal/server/params/params.go:21-33 | the value and true iff a map is attached and holds the key |
| Params.StringFrom | internal/server/params/params.go:35-51 | "missing params" without a map; "param not found" for an absent key; the stored value otherwise |
| Params.IntFrom | internal/server/params/params.go:53-65 | StringFrom's error as it is; a parse failure wrapped with "invalid int param"; the parsed value otherwise |
| Params.IntFromDecimal | internal/server/params/params.go:53-65 | a decimal parameter reads back as its number |
| Params.WithRequest | internal/server/params/params.go:67-71 | after attaching the parameters, StringFrom returns each key's last value |
| Request.MissingParamError | internal/server/request/request.go:33-39 | the message is "Missing parameter: " followed by the key |
| Request.QueryParam | internal/server/request/request.go:41-48 | the default when the value is missing or empty, the value otherwise |
| Request.QueryMultipleParam | internal/server/request/request.go:50-58 | the default when empty; otherwise comma-free pieces that join back with "," into the value |
| Request.IntQueryParam | internal/server/request/request.go:60-73 | the default without parsing when empty; the parsed value; or 0 and the wrapped parse error |
| Request.RequiredQueryParam | internal/server/request/request.go:75-83 | the value, or MissingParamError when it is empty |
| Request.RequiredIntQueryParam | internal/server/request/request.go:85-98 | a missing parameter is reported before any parsing |
| Request.BoolQueryParam | internal/server/request/request.go:100-113 | the default when empty; the parsed bool; or false and the wrapped parse error |
| Request.IntQueryParamDecimal | internal/server/request/request.go:60-98 | a decimal query value reads back as its number |
| ResponseErrors.Plain | internal/server/response/errors.go:12-17 | a constructor's struct: code and message set, error code and cause unset |
| ResponseErrors.ConstructorsClassify | internal/server/response/errors.go:12-101 | each constructor's status code; eleven client errors and two server errors; validation and bad request are both 400 |
| ResponseErrors.UserError.WithInternal | internal/server/response/errors.go:107-111 | a copy with only the cause changed |
| ResponseErrors.UserError.WithErrorCode | internal/server/response/errors.go:113-117 | a copy with only the error code changed |
| Transaction.Outcome | internal/database/transaction.go:8-17 | a recovered panic replaces the error: an error as it is, a string as its text, anything else as "recovered from panic" |
| Transaction.Tx.Rollback | internal/database/transaction.go:19-26 | ends the transaction; a transaction already ended answers sql.ErrTxDone |
| Transaction.Tx.Commit | internal/database/transaction.go:28-33 | ends the transaction; a transaction already ended answers sql.ErrTxDone |
| Transaction.TxHandler | internal/database/transaction.go:7-34 | with an error, rolls back and never commits, wrapping the error with a failed rollback's message; without one, commits and never rolls back, wrapping a failed commit with "commit transaction" |
| Migrate.Ext | internal/database/migrate.go:66 | filepath.Ext: empty or a "."-led suffix of the name |
| Migrate.SqlExtensionIffSuffix | internal/database/migrate.go:66 | a name has extension ".sql" iff it ends in ".sql" |
| Migrate.Migrations | internal/database/migrate.go:64-71 | exactly the non-directory ".sql" entries, in listing order |
| Migrate.FindMigrationFiles | internal/database/migrate.go:58-78 | a listing error wrapped with "read migrations directory"; "no migrations found" when nothing remains; otherwise the filtered entries |
| Migrate.LoadedBeforeFailure | internal/database/migrate.go:40-50 | the files before the first failing one load; that one fails |
| Migrate.LoadAll | internal/database/migrate.go:40-53 | loads the files in order and stops at the first failure, wrapped with "execute migration" |
| Migrate.Migrate | internal/database/migrate.go:29-55 | fails without touching a transaction when discovery or begin fails; otherwise loads in order inside one transaction and stops at the first failure; rolls back after a failure and commits otherwise |
| Migrate.Connection.Exec | internal/database/migrate.go:89 | runs one statement outside a transaction; a failing statement changes nothing |
| Migrate.DropSchema | internal/database/migrate.go:81-96 | an empty name fails before anything is executed; otherwise the DROP SCHEMA statement runs, its error wrapped with "drop schema" |

## Left out

- PDF report generation (`GeneratePdf` and its helpers in internal/core/usecases/order.go). It renders with gofpdf, formats floats and writes a file.
- JWT signing and claims parsing (`CreateJWT`, `GetJWTClaims`, `AuthJWT`). Signature verification is the `verify` parameter of `Jwt.IsJWTHeaderValid`.
- HTTP handlers, routing, the server, response writing, request logging and bcrypt. These are I/O and JSON encoding.
- `ReadBody`. It is a JSON decoder plus a validation library.
- The sqlx connection and the context plumbing of the database package. `BeginTx`, including its refusal of a nested transaction, is the `begin` parameter of `Migrate.Migrate`.
- Configuration, dependency wiring, entry points, logging and the test harness.
- Concurrency. The read-check-decrement of stock is not locked, and the model has no interleavings.
- Float prices and timestamps. These are opaque values that are copied, never computed with. `time.Now` is the `now` parameter.
- The schema is partly assumed, because the schema file is not part of this model:
  - the quantity column of order_product defaults to 0;
  - order_product's primary key is (order_id, product_id), named order_product_pkey;
  - the only foreign key checked is product.category_id;
  - deletes check no foreign keys;
  - user email is unique.
- Row order. GetAllCategories and GetAllProducts return rows in an unspecified order. The order-line table keeps insertion order.
- Nil pointers the code dereferences without a check are preconditions, not error paths:
  - an order's item list (`order.ProductItems`);
  - an order's user;
  - a product's category (`product.Category`), which InsertProduct and UpdateProduct read;
  - the parameter map that `From` type-asserts.
- Base.Message: does not model strconv.Quote's escaping of the offending input in a *strconv.NumError message.
- Migrate.Migrate: loads each file by its name; the `filepath.Join` with the migration directory is not modelled, and neither are the log lines.
- Migrate.Migrate: a panic inside the migration loop is not modelled; it calls TxHandler with no recovered value.
- Migrate.DropSchema: the schema name is pasted into the statement as the code does; SQL quoting is not modelled.
- Strconv.Atoi: the contract states the range and the error shape, not every digit-level case. Round trips are `Strconv.AtoiDecimal` and `Strconv.AtoiNegativeDecimal`.
- OrderService.OrderService.CreateOrder: says nothing about the result once the header has been written; `OrderRepo.OrderRepository.CreateOrder` states that part.
- OrderService.OrderService.UpdateOrderStatus: checks the status only as a string. It does not check that the order exists.

## Findings

| source | as written | input that shows it | evidently intended | confidence | as-written member | corrected member |
|---|---|---|---|---|---|---|
| internal/repo/orderproduct_repo.go:42-45 | declares `var orderProduct *domain.OrderedProduct` (nil) and assigns through it | an order with one line whose product exists (order "0", product 1, quantity 10) | each line builds its own OrderedProduct value and is appended | high (not executed) | OrderProductRepo.GetProductsAsWritten | OrderProductRepo.OrderProductRepository.GetProducts |
| internal/server/auth/jwt.go:70-73 | takes `parts[0:2]` and `parts[2]` without checking that the token has three parts | the header "Bearer abc" | a token with fewer than three parts is invalid (false) | high (not executed) | Jwt.IsJWTHeaderValidAsWritten | Jwt.IsJWTHeaderValid |

The first finding is exhibited by `OrderProductRepo.GetProductsCounterexample` and `OrderProductRepo.GetProductsAsWrittenPanics`. The second is exhibited by `Jwt.IsJWTHeaderValidCounterexample`, and `Jwt.CorrectedAgreesWhereWrittenReturns` shows the correction changes nothing else.
