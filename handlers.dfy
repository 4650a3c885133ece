/**
 * The route handlers, as methods of a class that owns the two tables. Each
 * method follows its handler's steps: test the body fields, run the SELECT
 * the handler runs, throw on the rule it checks, then INSERT, UPDATE or
 * DELETE. Every method is proved to agree with the function of module Rules
 * that states its handler, and to keep the store consistent.
 */
module Handlers {
  import opened Text
  import opened Rules

  /** A query result with a positive row count has a row. */
  lemma NonEmpty(s: set<Id>)
    requires |s| > 0
    ensures exists x :: x in s
  {
    if forall x :: x !in s {
      assert false;
    }
  }

  /** No id belongs to a query result with no rows. */
  lemma NoRow(s: set<Id>, x: Id)
    requires |s| == 0
    ensures x !in s
  {
  }

  class Store {
    /** `categoria`: id to nombre. */
    var categorias: map<Id, string>
    /** `producto`: id to (nombre, descripcion, categoria_id). */
    var productos: map<Id, Producto>
    /** The next id AUTO_INCREMENT hands out in each table. */
    var nextCategoria: Id
    var nextProducto: Id

    /** The tables and counters as a value of the rule model. */
    function Tables(): Rules.Db
      reads this
    {
      Rules.Db(categorias, productos, nextCategoria, nextProducto)
    }

    ghost predicate Valid()
      reads this
    {
      Consistent(Tables())
    }

    /** A store over the freshly created, empty schema. */
    constructor ()
      ensures Valid() && Tables() == Empty
    {
      categorias, productos := map[], map[];
      nextCategoria, nextProducto := 1, 1;
    }

    /** GET /categoria: every row of `categoria`, each once, in no particular order. */
    method GetCategorias() returns (rows: seq<Categoria>)
      ensures |rows| == |categorias|
      ensures forall row :: row in rows <==> row.id in categorias && categorias[row.id] == row.nombre
    {
      rows := [];
      var pending := categorias.Keys;
      while |pending| > 0
        invariant pending <= categorias.Keys
        invariant |rows| == |categorias.Keys - pending|
        invariant forall row :: row in rows <==>
          row.id in categorias.Keys - pending && categorias[row.id] == row.nombre
        decreases pending
      {
        NonEmpty(pending);
        var id :| id in pending;
        assert categorias.Keys - (pending - {id}) == (categorias.Keys - pending) + {id};
        rows := rows + [Categoria(id, categorias[id])];
        pending := pending - {id};
      }
      assert categorias.Keys - pending == categorias.Keys;
    }

    /** GET /categoria/:id: the row with that id, or no row at all for an unknown id. */
    method GetCategoria(id: Id) returns (rows: seq<Categoria>)
      ensures |rows| <= 1
      ensures rows == [] <==> id !in categorias
      ensures forall row :: row in rows ==> row.id == id && row.nombre == categorias[id]
    {
      if id in categorias {
        rows := [Categoria(id, categorias[id])];
      } else {
        rows := [];
      }
    }

    /** POST /categoria */
    method PostCategoria(nombre: Option<string>) returns (res: Result<InsertInfo>)
      requires Valid()
      modifies this
      ensures Valid()
      ensures Reply(Tables(), res) == CreateCategoria(old(Tables()), nombre)
    {
      ghost var before := Tables();
      CreateCategoriaKeepsConsistent(before, nombre);
      if !Truthy(nombre) {
        return Err(FaltaNombre);
      }
      var n := Upper(nombre.value);
      var respuesta := set id | id in categorias && categorias[id] == n;
      if |respuesta| > 0 {
        NonEmpty(respuesta);
        return Err(CategoriaYaExiste);
      }
      forall id | id in categorias ensures categorias[id] != n {
        NoRow(respuesta, id);
      }
      var insertId := nextCategoria;
      categorias := categorias[insertId := n];
      nextCategoria := nextCategoria + 1;
      res := Ok(InsertInfo(1, insertId));
    }

    /** PUT /categoria/:id; answers the number of affected rows. */
    method PutCategoria(id: Id, nombre: Option<string>) returns (res: Result<nat>)
      requires Valid()
      modifies this
      ensures Valid()
      ensures Reply(Tables(), res) == RenameCategoria(old(Tables()), id, nombre)
    {
      ghost var before := Tables();
      RenameCategoriaKeepsConsistent(before, id, nombre);
      if !Truthy(nombre) {
        return Err(FaltaNombre);
      }
      var n := Upper(nombre.value);
      var respuesta := set other | other in categorias && categorias[other] == n && other != id;
      if |respuesta| > 0 {
        NonEmpty(respuesta);
        return Err(NombreYaExiste);
      }
      forall other | other in categorias && other != id ensures categorias[other] != n {
        NoRow(respuesta, other);
      }
      var affectedRows := 0;
      if id in categorias {
        categorias := categorias[id := n];
        affectedRows := 1;
      }
      res := Ok(affectedRows);
    }

    /** DELETE /categoria/:id; answers the number of affected rows. */
    method DeleteCategoria(id: Id, nombre: Option<string>) returns (res: Result<nat>)
      requires Valid()
      modifies this
      ensures Valid()
      ensures Reply(Tables(), res) == RemoveCategoria(old(Tables()), id, nombre)
    {
      ghost var before := Tables();
      RemoveCategoriaKeepsConsistent(before, id, nombre);
      if !Truthy(nombre) {
        return Err(FaltaNombre);
      }
      var respuesta := set p | p in productos && productos[p].categoriaId == id;
      if |respuesta| > 0 {
        NonEmpty(respuesta);
        return Err(TieneProductos);
      }
      forall p | p in productos ensures productos[p].categoriaId != id {
        NoRow(respuesta, p);
      }
      var affectedRows := 0;
      if id in categorias {
        categorias := categorias - {id};
        affectedRows := 1;
      }
      res := Ok(affectedRows);
    }

    /** POST /producto; answers the id of the new product. */
    method PostProducto(nombre: Option<string>, categoriaId: Option<Id>, descripcion: Option<string>)
      returns (res: Result<Id>)
      requires Valid()
      modifies this
      ensures Valid()
      ensures Reply(Tables(), res) == CreateProducto(old(Tables()), nombre, categoriaId, descripcion)
    {
      ghost var before := Tables();
      CreateProductoKeepsConsistent(before, nombre, categoriaId, descripcion);
      if !Truthy(nombre) || !TruthyId(categoriaId) {
        return Err(FaltanDatos);
      }
      var n := Upper(nombre.value);
      var c := categoriaId.value;
      var respuesta := GetCategoria(c);
      if |respuesta| == 0 {
        return Err(CategoriaNoExiste);
      }
      var duplicados := set p | p in productos && productos[p].nombre == n;
      if |duplicados| > 0 {
        NonEmpty(duplicados);
        return Err(ProductoYaExiste);
      }
      forall p | p in productos ensures productos[p].nombre != n {
        NoRow(duplicados, p);
      }
      var d := "";
      if Truthy(descripcion) {
        d := descripcion.value;
      }
      var insertId := nextProducto;
      productos := productos[insertId := Producto(n, d, c)];
      nextProducto := nextProducto + 1;
      res := Ok(insertId);
    }
  }
}
