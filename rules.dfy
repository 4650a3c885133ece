/**
 * The business rules of the category and product handlers, stated on a value
 * `Db` that holds the two tables of the `lista_super_bd` schema and their
 * AUTO_INCREMENT counters. Each handler is a function from the store before
 * the request to a `Reply`: the store after it and the handler's response.
 * The class in module Handlers performs the same requests step by step on
 * mutable tables and is proved to agree with these functions.
 */
module Rules {
  import opened Text

  type Id = int

  /** A field of the JSON request body that may be absent. */
  datatype Option<T> = None | Some(value: T)

  /** A row of `SELECT * FROM categoria`. */
  datatype Categoria = Categoria(id: Id, nombre: string)

  /** The columns of a `producto` row other than its id. */
  datatype Producto = Producto(nombre: string, descripcion: string, categoriaId: Id)

  datatype ErrorKind = MissingField | DuplicateName | UnknownCategory | HasDependents

  /** A rule violation: its kind and the message the handler throws. */
  datatype Failure = Failure(kind: ErrorKind, message: string)

  datatype Result<T> = Ok(value: T) | Err(failure: Failure)

  /** The metadata MySQL returns for an INSERT. */
  datatype InsertInfo = InsertInfo(affectedRows: nat, insertId: Id)

  /** The two tables, keyed by id, and the next id each AUTO_INCREMENT column hands out. */
  datatype Db = Db(categorias: map<Id, string>, productos: map<Id, Producto>,
                   nextCategoria: Id, nextProducto: Id)

  /** The store after a request, and the handler's response. */
  datatype Reply<T> = Reply(db: Db, result: Result<T>)

  /** A freshly created schema: no rows, both counters at 1. */
  const Empty := Db(map[], map[], 1, 1)

  const FaltaNombre := Failure(MissingField, "Falta enviar el nombre!")
  const FaltanDatos := Failure(MissingField, "No enviaste todos los datos obligatorios!")
  const CategoriaYaExiste := Failure(DuplicateName, "Esa cataegoria ya existe")
  const NombreYaExiste := Failure(DuplicateName, "El nombre de la categoria que querés poner ya existe!")
  const TieneProductos := Failure(HasDependents, "Esta categoria tiene productos asociados, no se puede eliminar")
  const CategoriaNoExiste := Failure(UnknownCategory, "Esa categoria no existe!")
  const ProductoYaExiste := Failure(DuplicateName, "Ese producto ya existe!")

  /** JavaScript truthiness of a string field: absent and "" are falsy. */
  predicate Truthy(s: Option<string>) {
    s.Some? && s.value != ""
  }

  /** JavaScript truthiness of a numeric field: absent and 0 are falsy. */
  predicate TruthyId(v: Option<Id>) {
    v.Some? && v.value != 0
  }

  // ---------------------------------------------------------------------------
  // Invariants of the store

  /** Every id lies below the counter of its table, so a counter value is always a fresh id. */
  ghost predicate WellFormed(db: Db) {
    && 1 <= db.nextCategoria
    && 1 <= db.nextProducto
    && (forall id :: id in db.categorias ==> 1 <= id < db.nextCategoria)
    && (forall id :: id in db.productos ==> 1 <= id < db.nextProducto)
  }

  ghost predicate CategoriaNamesUnique(categorias: map<Id, string>) {
    forall i, j :: i in categorias && j in categorias && categorias[i] == categorias[j] ==> i == j
  }

  ghost predicate ProductoNamesUnique(productos: map<Id, Producto>) {
    forall i, j :: i in productos && j in productos && productos[i].nombre == productos[j].nombre ==> i == j
  }

  /** Every product belongs to an existing category. */
  ghost predicate ReferencesExist(db: Db) {
    forall id :: id in db.productos ==> db.productos[id].categoriaId in db.categorias
  }

  ghost predicate Consistent(db: Db) {
    && WellFormed(db)
    && CategoriaNamesUnique(db.categorias)
    && ProductoNamesUnique(db.productos)
    && ReferencesExist(db)
  }

  // ---------------------------------------------------------------------------
  // The conditions the handlers' SELECT statements test

  /** `SELECT id FROM categoria WHERE nombre = ?` returns a row. */
  predicate CategoriaNamed(categorias: map<Id, string>, nombre: string) {
    exists id :: id in categorias && categorias[id] == nombre
  }

  /** `SELECT * FROM categoria WHERE nombre = ? AND id <> ?` returns a row. */
  predicate OtherCategoriaNamed(categorias: map<Id, string>, nombre: string, id: Id) {
    exists other :: other in categorias && other != id && categorias[other] == nombre
  }

  /** `SELECT * FROM producto WHERE nombre = ?` returns a row. */
  predicate ProductoNamed(productos: map<Id, Producto>, nombre: string) {
    exists p :: p in productos && productos[p].nombre == nombre
  }

  /** `SELECT * FROM producto WHERE categoria_id = ?` returns a row. */
  predicate HasProductos(productos: map<Id, Producto>, categoriaId: Id) {
    exists p :: p in productos && productos[p].categoriaId == categoriaId
  }

  // ---------------------------------------------------------------------------
  // The handlers

  /** POST /categoria */
  function CreateCategoria(db: Db, nombre: Option<string>): (r: Reply<InsertInfo>)
    ensures r.result.Err? ==> r.db == db
    ensures !Truthy(nombre) ==> r.result == Err(FaltaNombre)
    ensures Truthy(nombre) ==>
      (r.result == Err(CategoriaYaExiste) <==> CategoriaNamed(db.categorias, Upper(nombre.value)))
    ensures Truthy(nombre) && !CategoriaNamed(db.categorias, Upper(nombre.value)) ==> r.result.Ok?
  {
    if !Truthy(nombre) then Reply(db, Err(FaltaNombre))
    else
      var n := Upper(nombre.value);
      if CategoriaNamed(db.categorias, n) then Reply(db, Err(CategoriaYaExiste))
      else
        var id := db.nextCategoria;
        Reply(db.(categorias := db.categorias[id := n], nextCategoria := id + 1),
              Ok(InsertInfo(1, id)))
  }

  /** PUT /categoria/:id; the response is the number of affected rows. */
  function RenameCategoria(db: Db, id: Id, nombre: Option<string>): (r: Reply<nat>)
    ensures r.result.Err? ==> r.db == db
    ensures !Truthy(nombre) ==> r.result == Err(FaltaNombre)
    ensures Truthy(nombre) ==>
      (r.result == Err(NombreYaExiste) <==> OtherCategoriaNamed(db.categorias, Upper(nombre.value), id))
    ensures Truthy(nombre) && !OtherCategoriaNamed(db.categorias, Upper(nombre.value), id) ==> r.result.Ok?
  {
    if !Truthy(nombre) then Reply(db, Err(FaltaNombre))
    else
      var n := Upper(nombre.value);
      if OtherCategoriaNamed(db.categorias, n, id) then Reply(db, Err(NombreYaExiste))
      else if id in db.categorias then Reply(db.(categorias := db.categorias[id := n]), Ok(1))
      else Reply(db, Ok(0))
  }

  /** DELETE /categoria/:id; the response is the number of affected rows. */
  function RemoveCategoria(db: Db, id: Id, nombre: Option<string>): (r: Reply<nat>)
    ensures r.result.Err? ==> r.db == db
    ensures !Truthy(nombre) ==> r.result == Err(FaltaNombre)
    ensures Truthy(nombre) ==>
      (r.result == Err(TieneProductos) <==> HasProductos(db.productos, id))
    ensures Truthy(nombre) && !HasProductos(db.productos, id) ==> r.result.Ok?
  {
    if !Truthy(nombre) then Reply(db, Err(FaltaNombre))
    else if HasProductos(db.productos, id) then Reply(db, Err(TieneProductos))
    else if id in db.categorias then Reply(db.(categorias := db.categorias - {id}), Ok(1))
    else Reply(db, Ok(0))
  }

  /** POST /producto; the response is the id of the new product. */
  function CreateProducto(db: Db, nombre: Option<string>, categoriaId: Option<Id>,
                          descripcion: Option<string>): (r: Reply<Id>)
    ensures r.result.Err? ==> r.db == db
  {
    if !Truthy(nombre) || !TruthyId(categoriaId) then Reply(db, Err(FaltanDatos))
    else
      var n := Upper(nombre.value);
      var c := categoriaId.value;
      if c !in db.categorias then Reply(db, Err(CategoriaNoExiste))
      else if ProductoNamed(db.productos, n) then Reply(db, Err(ProductoYaExiste))
      else
        var d := if Truthy(descripcion) then descripcion.value else "";
        var id := db.nextProducto;
        Reply(db.(productos := db.productos[id := Producto(n, d, c)], nextProducto := id + 1),
              Ok(id))
  }

  // ---------------------------------------------------------------------------
  // What each handler does to the tables

  /** A successful POST /categoria adds exactly one row, under a fresh id, holding the upper-cased name. */
  lemma CreateCategoriaAddsOne(db: Db, nombre: Option<string>)
    requires WellFormed(db)
    requires CreateCategoria(db, nombre).result.Ok?
    ensures var r := CreateCategoria(db, nombre);
      var id := r.result.value.insertId;
      && Truthy(nombre)
      && r.result.value.affectedRows == 1
      && id !in db.categorias
      && r.db.categorias.Keys == db.categorias.Keys + {id}
      && r.db.categorias[id] == Upper(nombre.value)
      && (forall k :: k in db.categorias ==> r.db.categorias[k] == db.categorias[k])
      && |r.db.categorias| == |db.categorias| + 1
      && r.db.productos == db.productos
  {
  }

  /** A rename changes at most the `nombre` of row `id`; the count is 1 exactly when `id` exists. */
  lemma RenameCategoriaChangesOneRow(db: Db, id: Id, nombre: Option<string>)
    requires RenameCategoria(db, id, nombre).result.Ok?
    ensures var r := RenameCategoria(db, id, nombre);
      && Truthy(nombre)
      && r.result.value == (if id in db.categorias then 1 else 0)
      && r.db.categorias.Keys == db.categorias.Keys
      && (forall k :: k in db.categorias && k != id ==> r.db.categorias[k] == db.categorias[k])
      && (id in db.categorias ==> r.db.categorias[id] == Upper(nombre.value))
      && (id !in db.categorias ==> r.db == db)
      && r.db.productos == db.productos
      && r.db.nextCategoria == db.nextCategoria
  {
  }

  /** Renaming a category to the name it already has succeeds and changes nothing. */
  lemma RenameToOwnName(db: Db, id: Id, nombre: Option<string>)
    requires CategoriaNamesUnique(db.categorias)
    requires id in db.categorias && Truthy(nombre) && Upper(nombre.value) == db.categorias[id]
    ensures RenameCategoria(db, id, nombre) == Reply(db, Ok(1))
  {
  }

  /** A delete removes at most row `id`; the count is 1 exactly when `id` exists. */
  lemma RemoveCategoriaRemovesOneRow(db: Db, id: Id, nombre: Option<string>)
    requires RemoveCategoria(db, id, nombre).result.Ok?
    ensures var r := RemoveCategoria(db, id, nombre);
      && Truthy(nombre)
      && !HasProductos(db.productos, id)
      && r.result.value == (if id in db.categorias then 1 else 0)
      && r.db.categorias.Keys == db.categorias.Keys - {id}
      && (forall k :: k in r.db.categorias ==> r.db.categorias[k] == db.categorias[k])
      && r.db.productos == db.productos
  {
  }

  /** DELETE /categoria/:id requires a `nombre` but its value never matters. */
  lemma RemoveCategoriaIgnoresNombre(db: Db, id: Id, a: string, b: string)
    requires a != "" && b != ""
    ensures RemoveCategoria(db, id, Some(a)) == RemoveCategoria(db, id, Some(b))
  {
  }

  /** The checks of POST /producto run in a fixed order and the first failing one decides the error. */
  lemma CreateProductoCheckOrder(db: Db, nombre: Option<string>, categoriaId: Option<Id>,
                                 descripcion: Option<string>)
    ensures var r := CreateProducto(db, nombre, categoriaId, descripcion).result;
      var given := Truthy(nombre) && TruthyId(categoriaId);
      var known := given && categoriaId.value in db.categorias;
      var taken := known && ProductoNamed(db.productos, Upper(nombre.value));
      && (!given ==> r == Err(FaltanDatos))
      && (given && !known ==> r == Err(CategoriaNoExiste))
      && (taken ==> r == Err(ProductoYaExiste))
      && (known && !taken <==> r.Ok?)
  {
  }

  /** A successful POST /producto adds exactly one row under a fresh id and returns that id. */
  lemma CreateProductoAddsOne(db: Db, nombre: Option<string>, categoriaId: Option<Id>,
                              descripcion: Option<string>)
    requires WellFormed(db)
    requires CreateProducto(db, nombre, categoriaId, descripcion).result.Ok?
    ensures var r := CreateProducto(db, nombre, categoriaId, descripcion);
      var id := r.result.value;
      && Truthy(nombre) && TruthyId(categoriaId)
      && id !in db.productos
      && r.db.productos.Keys == db.productos.Keys + {id}
      && r.db.productos[id] == Producto(Upper(nombre.value),
                                        if Truthy(descripcion) then descripcion.value else "",
                                        categoriaId.value)
      && (forall k :: k in db.productos ==> r.db.productos[k] == db.productos[k])
      && |r.db.productos| == |db.productos| + 1
      && r.db.categorias == db.categorias
  {
  }

  // ---------------------------------------------------------------------------
  // Normalisation: sending a name or its upper-case form gives the same result

  lemma CreateCategoriaNormalises(db: Db, s: string)
    ensures CreateCategoria(db, Some(Upper(s))) == CreateCategoria(db, Some(s))
  {
    UpperIdempotent(s);
  }

  lemma RenameCategoriaNormalises(db: Db, id: Id, s: string)
    ensures RenameCategoria(db, id, Some(Upper(s))) == RenameCategoria(db, id, Some(s))
  {
    UpperIdempotent(s);
  }

  lemma CreateProductoNormalises(db: Db, s: string, categoriaId: Option<Id>, descripcion: Option<string>)
    ensures CreateProducto(db, Some(Upper(s)), categoriaId, descripcion)
         == CreateProducto(db, Some(s), categoriaId, descripcion)
  {
    UpperIdempotent(s);
  }

  /** Creating a category twice under names that normalise alike fails the second time. */
  lemma CreateCategoriaTwice(db: Db, a: string, b: string)
    requires CreateCategoria(db, Some(a)).result.Ok?
    requires Upper(a) == Upper(b)
    ensures var db' := CreateCategoria(db, Some(a)).db;
      CreateCategoria(db', Some(b)) == Reply(db', Err(CategoriaYaExiste))
  {
    var db' := CreateCategoria(db, Some(a)).db;
    assert db'.categorias[db.nextCategoria] == Upper(b);
  }

  // ---------------------------------------------------------------------------
  // Each handler keeps the store consistent

  lemma CreateCategoriaKeepsConsistent(db: Db, nombre: Option<string>)
    requires Consistent(db)
    ensures Consistent(CreateCategoria(db, nombre).db)
  {
  }

  lemma RenameCategoriaKeepsConsistent(db: Db, id: Id, nombre: Option<string>)
    requires Consistent(db)
    ensures Consistent(RenameCategoria(db, id, nombre).db)
  {
  }

  lemma RemoveCategoriaKeepsConsistent(db: Db, id: Id, nombre: Option<string>)
    requires Consistent(db)
    ensures Consistent(RemoveCategoria(db, id, nombre).db)
  {
  }

  lemma CreateProductoKeepsConsistent(db: Db, nombre: Option<string>, categoriaId: Option<Id>,
                                      descripcion: Option<string>)
    requires Consistent(db)
    ensures Consistent(CreateProducto(db, nombre, categoriaId, descripcion).db)
  {
  }

  // ---------------------------------------------------------------------------
  // Sequential runs of requests

  /** One request to one of the routes. */
  datatype Request =
    | ListCategorias
    | ShowCategoria(id: Id)
    | PostCategoria(nombre: Option<string>)
    | PutCategoria(id: Id, nombre: Option<string>)
    | DeleteCategoria(id: Id, nombre: Option<string>)
    | PostProducto(nombre: Option<string>, categoriaId: Option<Id>, descripcion: Option<string>)

  /** The store after serving one request; the two GET routes leave it as it is. */
  function Apply(db: Db, req: Request): (db': Db)
  {
    match req
    case ListCategorias => db
    case ShowCategoria(_) => db
    case PostCategoria(nombre) => CreateCategoria(db, nombre).db
    case PutCategoria(id, nombre) => RenameCategoria(db, id, nombre).db
    case DeleteCategoria(id, nombre) => RemoveCategoria(db, id, nombre).db
    case PostProducto(nombre, categoriaId, descripcion) =>
      CreateProducto(db, nombre, categoriaId, descripcion).db
  }

  /** The store after serving the requests one after another. */
  function Run(db: Db, reqs: seq<Request>): (db': Db)
    decreases |reqs|
  {
    if reqs == [] then db else Run(Apply(db, reqs[0]), reqs[1..])
  }

  lemma ApplyKeepsConsistent(db: Db, req: Request)
    requires Consistent(db)
    ensures Consistent(Apply(db, req))
  {
  }

  /** Names stay unique and every product keeps an existing category along any sequential run. */
  lemma {:induction false} RunKeepsConsistent(db: Db, reqs: seq<Request>)
    requires Consistent(db)
    ensures Consistent(Run(db, reqs))
    decreases |reqs|
  {
    if reqs != [] {
      ApplyKeepsConsistent(db, reqs[0]);
      RunKeepsConsistent(Apply(db, reqs[0]), reqs[1..]);
    }
  }
}
