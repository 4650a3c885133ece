/**
 * Concrete request sequences, stated on the rule functions: the store before
 * the requests is written out and so is the reply.
 */
module Scenarios {
  import opened Text
  import opened Rules

  lemma UpperBebidas()
    ensures Upper("bebidas") == "BEBIDAS"
  {
  }

  /** "bebidas" is stored as BEBIDAS under id 1; sending "BEBIDAS" afterwards is a duplicate. */
  lemma BebidasTwice()
    ensures CreateCategoria(Empty, Some("bebidas"))
         == Reply(Db(map[1 := "BEBIDAS"], map[], 2, 1), Ok(InsertInfo(1, 1)))
    ensures var db := CreateCategoria(Empty, Some("bebidas")).db;
      CreateCategoria(db, Some("BEBIDAS")) == Reply(db, Err(CategoriaYaExiste))
  {
    UpperBebidas();
    UpperKeepsUpperCase("BEBIDAS");
    var db := Db(map[1 := "BEBIDAS"], map[], 2, 1);
    assert db.categorias[1] == "BEBIDAS";
  }

  lemma UpperCola()
    ensures Upper("cola") == "COLA"
  {
  }

  /** With category 1 present, "cola" becomes product 1; without `descripcion` it is stored as "". */
  lemma ColaInBebidas()
    ensures var db := Db(map[1 := "BEBIDAS"], map[], 2, 1);
      CreateProducto(db, Some("cola"), Some(1), Some("gaseosa"))
        == Reply(db.(productos := map[1 := Producto("COLA", "gaseosa", 1)], nextProducto := 2), Ok(1))
    ensures var db := Db(map[1 := "BEBIDAS"], map[], 2, 1);
      CreateProducto(db, Some("cola"), Some(1), None)
        == Reply(db.(productos := map[1 := Producto("COLA", "", 1)], nextProducto := 2), Ok(1))
  {
    UpperCola();
  }

  /** Renaming category 1 to the name category 2 already has is refused and changes nothing. */
  lemma LacteosTaken()
    ensures var db := Db(map[1 := "CARNES", 2 := "LACTEOS"], map[], 3, 1);
      RenameCategoria(db, 1, Some("LACTEOS")) == Reply(db, Err(NombreYaExiste))
  {
    var db := Db(map[1 := "CARNES", 2 := "LACTEOS"], map[], 3, 1);
    UpperKeepsUpperCase("LACTEOS");
    assert db.categorias[2] == "LACTEOS";
  }

  /** A category that a product refers to cannot be deleted. */
  lemma BebidasHasCola()
    ensures var db := Db(map[1 := "BEBIDAS"], map[1 := Producto("COLA", "", 1)], 2, 2);
      RemoveCategoria(db, 1, Some("bebidas")) == Reply(db, Err(TieneProductos))
  {
  }
}
