/**
 * The product request handlers over the product table: each one parses the
 * route id, then validates the payload, then queries the table, and answers
 * with the `{error, message, data}` envelope; a failing query goes to
 * `next` instead.
 *
 * The table is the sequence `findMany` returns, in ascending id order, and
 * ids come from an autoincrement counter. `fault` stands for the database
 * rejecting the handler's query with that message; besides, updating or
 * deleting a missing id fails as Prisma does (error P2025).
 */
module ProductController {
  import opened Wrappers
  import opened Numbers
  import opened Http
  import opened ProductValidation

  /** A stored product; `category` is nullable. */
  datatype Product = Product(id: int, name: string, qty: int, price: int, category: Option<string>)

  /** The store's messages for a missing record. */
  const RecordToUpdateNotFound := "Record to update not found."
  const RecordToDeleteNotFound := "Record to delete does not exist."

  /** Ids strictly increase along the table, so no id occurs twice. */
  predicate Ascending(ps: seq<Product>) {
    forall i, j :: 0 <= i < j < |ps| ==> ps[i].id < ps[j].id
  }

  /** The position of the product with id `id` (`where: { id }`). */
  function Locate(ps: seq<Product>, id: int): (r: Option<nat>)
    ensures r.Some? ==> r.value < |ps| && ps[r.value].id == id
    ensures r.None? <==> forall i :: 0 <= i < |ps| ==> ps[i].id != id
  {
    if ps == [] then None
    else if ps[|ps| - 1].id == id then Some(|ps| - 1)
    else Locate(ps[..|ps| - 1], id)
  }

  /** In a table without repeated ids, every stored product is found at its own position. */
  lemma LocateStored(ps: seq<Product>, i: nat)
    requires Ascending(ps) && i < |ps|
    ensures Locate(ps, ps[i].id) == Some(i)
  {
  }

  /** The row `prisma.product.create({ data: value })` stores: a left-out category is null. */
  function NewProduct(id: int, v: ProductInput): (p: Product)
    ensures p.id == id && p.name == v.name && p.qty == v.qty && p.price == v.price
    ensures p.category.Some? <==> v.category.Text?
    ensures v.category.Text? ==> p.category == Some(v.category.text)
  {
    Product(id, v.name, v.qty, v.price,
      match v.category
      case Text(s) => Some(s)
      case _ => None)
  }

  /** The row after `prisma.product.update({ data: value })`: a left-out category is kept. */
  function UpdatedProduct(p: Product, v: ProductInput): (q: Product)
    ensures q.id == p.id && q.name == v.name && q.qty == v.qty && q.price == v.price
    ensures v.category.Absent? ==> q.category == p.category
    ensures v.category.Null? ==> q.category.None?
    ensures v.category.Text? ==> q.category == Some(v.category.text)
  {
    Product(p.id, v.name, v.qty, v.price,
      match v.category
      case Absent => p.category
      case Null => None
      case Text(s) => Some(s))
  }

  /** Removing the product at `i` drops exactly that id and keeps the order of the rest. */
  lemma RemoveAt(ps: seq<Product>, i: nat)
    requires Ascending(ps) && i < |ps|
    ensures Ascending(ps[..i] + ps[i + 1..])
    ensures forall q :: q in ps[..i] + ps[i + 1..] <==> q in ps && q.id != ps[i].id
  {
  }

  /** Replacing the product at `i` by one with the same id keeps the ids ascending. */
  lemma ReplaceAt(ps: seq<Product>, i: nat, p: Product)
    requires Ascending(ps) && i < |ps| && p.id == ps[i].id
    ensures Ascending(ps[i := p])
    ensures Locate(ps[i := p], p.id) == Some(i)
  {
    LocateStored(ps[i := p], i);
  }

  /** getAllProduct: 404 with `data: []` exactly when the table is empty, else 200 with the table. */
  function GetAllProduct(rows: seq<Product>, fault: Option<string>): (r: Outcome<seq<Product>>)
    ensures fault.Some? ==> r == Caught(Context("product", "getAllProduct"), fault.value)
    ensures fault.None? ==> r.Respond? && (r.reply.status == 404 <==> rows == [])
    ensures fault.None? && rows == [] ==>
      r.reply.body == Envelope(true, "No products found", Some([]))
    ensures fault.None? && rows != [] ==>
      r == Succeeded(200, "Products retrieved successfully", rows)
  {
    if fault.Some? then Caught(Context("product", "getAllProduct"), fault.value)
    else if |rows| == 0 then Respond(Reply(404, Envelope(true, "No products found", Some([]))))
    else Succeeded(200, "Products retrieved successfully", rows)
  }

  /** The empty-table reply carries `data: []`, unlike every other error reply. */
  lemma EmptyListingIsNotUniform()
    ensures !Uniform(GetAllProduct([], None))
  {
  }

  /** getProductById: 400 for a non-numeric id, then 404 or 200 with that product. */
  function GetProductById(param: string, rows: seq<Product>, fault: Option<string>): (r: Outcome<Product>)
    ensures Uniform(r)
    ensures NumberOf(param).None? ==> r == Failed(400, "Invalid product ID")
    ensures NumberOf(param).Some? && fault.Some? ==>
      r == Caught(Context("product", "getProductById"), fault.value)
    ensures NumberOf(param).Some? && fault.None? ==>
      r.Respond? && (r.reply.status == 404 <==> forall p :: p in rows ==> p.id != NumberOf(param).value)
    ensures r.Respond? && r.reply.status == 404 ==>
      NumberOf(param).Some? && forall p :: p in rows ==> p.id != NumberOf(param).value
    ensures r.Respond? && r.reply.status == 200 ==>
      NumberOf(param).Some? && r.reply.body.data.value in rows
      && r.reply.body.data.value.id == NumberOf(param).value
  {
    match NumberOf(param)
    case None => Failed(400, "Invalid product ID")
    case Some(id) =>
      if fault.Some? then Caught(Context("product", "getProductById"), fault.value)
      else match Locate(rows, id)
        case None => Failed(404, "Product not found")
        case Some(i) => Succeeded(200, "Product retrieved successfully", rows[i])
  }

  /**
   * Every stored product is retrieved by any route parameter `Number` maps
   * to its id ("7", "07", " 7 ", "+7", ...).
   */
  lemma FindsStoredProduct(param: string, rows: seq<Product>, i: nat)
    requires Ascending(rows) && i < |rows| && NumberOf(param) == Some(rows[i].id)
    ensures GetProductById(param, rows, None)
      == Succeeded(200, "Product retrieved successfully", rows[i])
  {
    LocateStored(rows, i);
  }

  /** An id no product has is answered with 404, whatever parameter spells it. */
  lemma MissingProductNotFound(param: string, rows: seq<Product>, id: int)
    requires NumberOf(param) == Some(id) && forall p :: p in rows ==> p.id != id
    ensures GetProductById(param, rows, None) == Failed(404, "Product not found")
  {
    assert forall i :: 0 <= i < |rows| ==> rows[i] in rows;
  }

  /** The decimal form of a stored id is one such parameter. */
  lemma FindsStoredProductByShownId(rows: seq<Product>, i: nat)
    requires Ascending(rows) && i < |rows|
    ensures GetProductById(ShowInt(rows[i].id), rows, None)
      == Succeeded(200, "Product retrieved successfully", rows[i])
  {
    NumberOfShowInt(rows[i].id);
    FindsStoredProduct(ShowInt(rows[i].id), rows, i);
  }

  /** A non-numeric id is answered before the table is consulted. */
  lemma InvalidIdIgnoresTable(param: string, rows1: seq<Product>, fault1: Option<string>,
                              rows2: seq<Product>, fault2: Option<string>)
    requires NumberOf(param).None?
    ensures GetProductById(param, rows1, fault1) == GetProductById(param, rows2, fault2)
  {
  }

  /** The product table the write handlers change in place. */
  class ProductStore {
    var rows: seq<Product>
    /** The id the autoincrement column hands out next. */
    var nextId: int

    ghost predicate Valid()
      reads this
    {
      Ascending(rows) && forall i :: 0 <= i < |rows| ==> rows[i].id < nextId
    }

    constructor ()
      ensures Valid() && rows == [] && nextId == 1
    {
      rows := [];
      nextId := 1;
    }

    /** createProduct: 400 with the first violation, or 201 with the stored product. */
    method CreateProduct(body: Json, fault: Option<string>) returns (r: Outcome<Product>)
      requires Valid()
      modifies this
      ensures Valid()
      ensures Uniform(r)
      ensures InputProductValidation(body).Failure? ==>
        r == Failed(400, Message(InputProductValidation(body).error)) && unchanged(this)
      ensures InputProductValidation(body).Success? && fault.Some? ==>
        r == Caught(Context("product", "createProduct"), fault.value) && unchanged(this)
      ensures InputProductValidation(body).Success? && fault.None? ==>
        var p := NewProduct(old(nextId), InputProductValidation(body).value);
        && rows == old(rows) + [p]
        && nextId == old(nextId) + 1
        && r == Succeeded(201, "Product created successfully", p)
      ensures r.Respond? && r.reply.status == 201 ==>
        GetProductById(ShowInt(r.reply.body.data.value.id), rows, None)
          == Succeeded(200, "Product retrieved successfully", r.reply.body.data.value)
    {
      var validation := InputProductValidation(body);
      if validation.Failure? {
        return Failed(400, Message(validation.error));
      }
      if fault.Some? {
        return Caught(Context("product", "createProduct"), fault.value);
      }
      var created := NewProduct(nextId, validation.value);
      rows := rows + [created];
      nextId := nextId + 1;
      FindsStoredProductByShownId(rows, |rows| - 1);
      r := Succeeded(201, "Product created successfully", created);
    }

    /** updateProduct: the id is checked before the body, the body before the table. */
    method UpdateProduct(param: string, body: Json, fault: Option<string>) returns (r: Outcome<Product>)
      requires Valid()
      modifies this
      ensures Valid()
      ensures Uniform(r)
      ensures NumberOf(param).None? ==>
        r == Failed(400, "Invalid product ID") && unchanged(this)
      ensures NumberOf(param).Some? && InputProductValidation(body).Failure? ==>
        r == Failed(400, Message(InputProductValidation(body).error)) && unchanged(this)
      ensures NumberOf(param).Some? && InputProductValidation(body).Success? ==>
        var id := NumberOf(param).value;
        if fault.Some? || Locate(old(rows), id).None? then
          && unchanged(this)
          && r == Caught(Context("product", "updateProduct"),
                         if fault.Some? then fault.value else RecordToUpdateNotFound)
        else
          var i := Locate(old(rows), id).value;
          var p := UpdatedProduct(old(rows)[i], InputProductValidation(body).value);
          && rows == old(rows)[i := p]
          && nextId == old(nextId)
          && r == Succeeded(200, "Product updated successfully", p)
      ensures r.Respond? && r.reply.status == 200 ==>
        GetProductById(ShowInt(r.reply.body.data.value.id), rows, None)
          == Succeeded(200, "Product retrieved successfully", r.reply.body.data.value)
    {
      var parsed := NumberOf(param);
      if parsed.None? {
        return Failed(400, "Invalid product ID");
      }
      var validation := InputProductValidation(body);
      if validation.Failure? {
        return Failed(400, Message(validation.error));
      }
      var id := parsed.value;
      if fault.Some? {
        return Caught(Context("product", "updateProduct"), fault.value);
      }
      var found := Locate(rows, id);
      if found.None? {
        return Caught(Context("product", "updateProduct"), RecordToUpdateNotFound);
      }
      var i := found.value;
      var updated := UpdatedProduct(rows[i], validation.value);
      ReplaceAt(rows, i, updated);
      rows := rows[i := updated];
      FindsStoredProductByShownId(rows, i);
      r := Succeeded(200, "Product updated successfully", updated);
    }

    /** deleteProduct: 200 with the removed product; every other product stays, in order. */
    method DeleteProduct(param: string, fault: Option<string>) returns (r: Outcome<Product>)
      requires Valid()
      modifies this
      ensures Valid()
      ensures Uniform(r)
      ensures NumberOf(param).None? ==>
        r == Failed(400, "Invalid product ID") && unchanged(this)
      ensures NumberOf(param).Some? ==>
        var id := NumberOf(param).value;
        if fault.Some? || Locate(old(rows), id).None? then
          && unchanged(this)
          && r == Caught(Context("product", "deleteProduct"),
                         if fault.Some? then fault.value else RecordToDeleteNotFound)
        else
          var i := Locate(old(rows), id).value;
          && rows == old(rows)[..i] + old(rows)[i + 1..]
          && nextId == old(nextId)
          && r == Succeeded(200, "Product deleted successfully", old(rows)[i])
          && (forall q :: q in rows <==> q in old(rows) && q.id != id)
          && GetProductById(ShowInt(id), rows, None) == Failed(404, "Product not found")
    {
      var parsed := NumberOf(param);
      if parsed.None? {
        return Failed(400, "Invalid product ID");
      }
      var id := parsed.value;
      if fault.Some? {
        return Caught(Context("product", "deleteProduct"), fault.value);
      }
      var found := Locate(rows, id);
      if found.None? {
        return Caught(Context("product", "deleteProduct"), RecordToDeleteNotFound);
      }
      var i := found.value;
      var removed := rows[i];
      RemoveAt(rows, i);
      rows := rows[..i] + rows[i + 1..];
      NumberOfShowInt(id);
      MissingProductNotFound(ShowInt(id), rows, id);
      r := Succeeded(200, "Product deleted successfully", removed);
    }
  }
}
