# Business rules of the `lista_super_bd` category and product service

The service is a small Express application over a MySQL schema with two
tables. `categoria` holds an id and a `nombre`. `producto` holds an id, a
`nombre`, a `descripcion` and a `categoria_id`. Before each INSERT, UPDATE
or DELETE, a route handler checks the request body and runs one or two
SELECTs. This project models those checks and the mutations they guard:

- `GET /categoria` lists every category.
- `GET /categoria/:id` gives zero or one row.
- `POST /categoria` upper-cases the name and refuses a duplicate.
- `PUT /categoria/:id` refuses a name that a category with a *different*
  id already has, and answers the number of affected rows.
- `DELETE /categoria/:id` demands a `nombre`, never uses it, and refuses a
  category that still has products.
- `POST /producto` demands `nombre` and `categoria_id`, checks that the
  category exists, then checks that the name is unused, and stores `""`
  for an absent description.

Layout:

- `text.dfy`, module `Text`: `toUpperCase` as ASCII upper-casing, with
  its idempotence.
- `rules.dfy`, module `Rules`: the store as a value `Db`, holding both
  tables as maps and the two AUTO_INCREMENT counters. Each handler is a
  function from the store before a request to a `Reply`, which holds the
  store after the request and the response (`Ok(value)` or
  `Err(Failure(kind, message))`, where the message is the literal text
  the handler throws).
  The module also holds the store invariants: category names unique,
  product names unique, every product's `categoria_id` an existing
  category, and every id below its counter. It proves what each handler
  changes, that each handler keeps the invariants, and that any sequential
  run of requests keeps them (`Run`, `RunKeepsConsistent`).
- `handlers.dfy`, module `Handlers`: class `Store` with the two tables
  and the counters as mutable fields. There is one method per route, and
  each follows the handler's steps: test the body fields, run the SELECT
  (a set comprehension over the table), throw on a non-empty or empty
  result, then mutate the fields. Each mutating method is proved to agree
  with its `Rules` function and to keep `Valid()`. The two GET methods
  have no `modifies` clause, so they change nothing.
- `scenarios.dfy`, module `Scenarios`: concrete request sequences written
  out on the rule functions.

Modelling choices:

- A body field is an `Option`. A string field is falsy when absent or
  `""`. `categoria_id` is falsy when absent or `0` (app.js:177).
- The fresh id of an INSERT is the table's AUTO_INCREMENT counter. It
  starts at 1 and only grows, so it is never a key already in the table.
  A `Store` starts from the empty schema.
- `PUT` answers `affectedRows`. The Node `mysql` driver connects with
  the FOUND_ROWS flag by default, so this is the number of rows matched:
  1 when the id exists, even if the name does not change, and 0 otherwise.
- `PUT` and `DELETE` refuse an empty `nombre` as well as an absent one,
  because the test is `!req.body.nombre` (app.js:109, 143).
  `categoria_id` 0 counts as missing (app.js:177). A `PUT` to an
  unknown id still fails with the duplicate-name error when another
  category has the name. The duplicate-category message keeps the source's spelling
  "Esa cataegoria ya existe".

## Model

| member | source | states |
|---|---|---|
| `Text.Upper` | app.js:80 | The normalised name has the same length, contains no lower-case ASCII letter, maps each letter a-z to its capital and keeps every other character |
| `Text.UpperKeepsUpperCase` | app.js:113 | A name with no lower-case letter is stored exactly as sent |
| `Text.UpperIdempotent` | app.js:181 | Upper-casing twice gives the same name as upper-casing once |
| `Rules.CreateCategoria` | app.js:72-103 | A failed POST /categoria leaves the store unchanged. A falsy `nombre` gives "Falta enviar el nombre!". Otherwise the duplicate error happens exactly when some category already has `Upper(nombre)`, and a request that passes both checks succeeds |
| `Rules.RenameCategoria` | app.js:107-137 | A failed PUT leaves the store unchanged. A falsy `nombre` gives "Falta enviar el nombre!". Otherwise the duplicate error happens exactly when a category with a different id has `Upper(nombre)`; when none has it the request succeeds, even for an unknown id |
| `Rules.RemoveCategoria` | app.js:141-167 | A failed DELETE leaves the store unchanged. A falsy `nombre` gives "Falta enviar el nombre!". Otherwise the dependents error happens exactly when some product has `categoria_id = id`; a category without products is deleted (or the count is 0 for an unknown id) |
| `Rules.CreateProducto` | app.js:175-217 | A failed POST /producto leaves the store unchanged |
| `Rules.CreateCategoriaAddsOne` | app.js:90-95 | A successful create adds one row under a fresh id, holding `Upper(nombre)`. No other category row changes, the product table is untouched, and the insert metadata reports one affected row |
| `Rules.RenameCategoriaChangesOneRow` | app.js:127-131 | A successful PUT answers 1 if the id exists and 0 if not. It changes only the `nombre` of that row. For an unknown id the store is unchanged |
| `Rules.RenameToOwnName` | app.js:119-125 | Where category names are unique, renaming a category to the name it already has succeeds with count 1 and changes nothing |
| `Rules.RemoveCategoriaRemovesOneRow` | app.js:150-161 | A successful DELETE means no product referred to the id. It answers 1 if the id existed and 0 if not, removes only that row and leaves products untouched |
| `Rules.RemoveCategoriaIgnoresNombre` | app.js:143-147 | Any two non-empty `nombre` values give the same DELETE outcome, so the value is required but never used |
| `Rules.CreateProductoCheckOrder` | app.js:177-196 | The first failing check decides the error: missing field, then unknown category, then duplicate product name. The request succeeds exactly when all three checks pass |
| `Rules.CreateProductoAddsOne` | app.js:198-208 | A successful create inserts one product under a fresh id, returns that id and stores (`Upper(nombre)`, `descripcion` or `""`, `categoria_id`). No other row changes |
| `Rules.CreateCategoriaNormalises` | app.js:80-84 | Sending a name or its upper-case form creates the same category with the same outcome |
| `Rules.RenameCategoriaNormalises` | app.js:113-121 | Sending a name or its upper-case form gives the same rename outcome |
| `Rules.CreateProductoNormalises` | app.js:181-192 | Sending a name or its upper-case form gives the same product-create outcome |
| `Rules.CreateCategoriaTwice` | app.js:82-88 | After one successful create, a second create whose name upper-cases the same fails with the duplicate error and changes nothing |
| `Rules.CreateCategoriaKeepsConsistent` | app.js:83-93 | POST /categoria keeps the store consistent: names unique, references valid, ids below counters |
| `Rules.RenameCategoriaKeepsConsistent` | app.js:119-129 | PUT /categoria/:id keeps the store consistent |
| `Rules.RemoveCategoriaKeepsConsistent` | app.js:150-159 | DELETE /categoria/:id keeps the store consistent; the dependents guard keeps every product's category in place |
| `Rules.CreateProductoKeepsConsistent` | app.js:184-206 | POST /producto keeps the store consistent; the existence check makes the new product's category valid |
| `Rules.ApplyKeepsConsistent` | app.js:72-217 | Serving any one request keeps the store consistent |
| `Rules.RunKeepsConsistent` | app.js:72-217 | Any sequence of requests, served one after another, keeps the store consistent |
| `Handlers.Store.GetCategorias` | app.js:40-52 | Answers every row of `categoria` exactly once: as many rows as the table has, each an (id, nombre) pair of the table |
| `Handlers.Store.GetCategoria` | app.js:55-69 | Answers at most one row: the stored row for a known id, and the empty sequence exactly when the id is unknown |
| `Handlers.Store.PostCategoria` | app.js:72-103 | Runs the handler's steps on the mutable tables. The new tables and the response are those of `Rules.CreateCategoria`, and `Valid()` is kept |
| `Handlers.Store.PutCategoria` | app.js:107-137 | Same as above, against `Rules.RenameCategoria` |
| `Handlers.Store.DeleteCategoria` | app.js:141-167 | Same as above, against `Rules.RemoveCategoria` |
| `Handlers.Store.PostProducto` | app.js:175-217 | Same as above, against `Rules.CreateProducto`; the category lookup reuses the `GET /categoria/:id` query |
| `Scenarios.BebidasTwice` | app.js:72-93 | On the empty store, "bebidas" is stored as BEBIDAS under id 1, and sending "BEBIDAS" afterwards is refused as a duplicate |
| `Scenarios.ColaInBebidas` | app.js:175-208 | With category 1 present, "cola" becomes product 1 named COLA. Without `descripcion` it is stored with "" |
| `Scenarios.LacteosTaken` | app.js:119-125 | Renaming category 1 to LACTEOS while category 2 has that name is refused and changes nothing |
| `Scenarios.BebidasHasCola` | app.js:150-155 | Deleting a category that a product refers to is refused and changes nothing |

## Left out

- Express setup, JSON body parsing, routing and `app.listen` (app.js:1-7, 226-228): HTTP plumbing.
- The MySQL connection, `conn.connect` and `util.promisify` (app.js:10-25): the tables are in-memory maps. The SQL text is replaced by the condition each SELECT tests.
- Store failures: every query is assumed to succeed. A rejected query (a lost connection, a schema error) is not modelled, so there is no `StoreError`.
- The HTTP status 413, the `{respuesta}`/`{Error}` envelopes and the `console.log`/`console.error` calls: transport and logging. A failure carries only its kind and its message text.
- Concurrency: the model is sequential. The check-then-insert race between two concurrent requests, which the service does not prevent, is not captured.
- MySQL comparison semantics (case-insensitive collation, trailing-space padding): name equality is plain string equality after `Upper`.
- Text.Upper: upper-cases ASCII letters only. Full Unicode `toUpperCase` (accented letters, 'ß' becoming "SS", which changes the length) is not modelled.
- JavaScript coercion of body fields: a non-string `nombre`, for which `toUpperCase` throws, and a string `categoria_id` such as "0" are not modelled. Path ids are integers.
- Rules.CreateCategoria: the insert metadata is reduced to `affectedRows` and `insertId`. The driver's other OkPacket fields are not modelled.
- Handlers.Store.GetCategorias: the rows come in no specified order, as with a SELECT without ORDER BY. The loop models the store's scan of the table.
- Handlers.Store: `Valid()` assumes that the store starts from the empty schema and is changed only by these handlers. Rows written to the database by other means, which could break the invariants, are not modelled.
- The shopping-list section (app.js:219-223) has no code.
