/** modules/product/repository/product.go: the `Products` collection, kept
    as a map from `_id` to product, and the four operations on it. */
module ProductRepository {
  import opened Wrappers
  import opened ObjectIds
  import Mongo

  /** A `float64` price, kept as its IEEE-754 bits: the saga only copies it. */
  datatype Price = Price(bits: bv64)

  /** `model.Product` without its time stamps. */
  datatype Product = Product(id: ObjectId, name: string, description: string, price: Price,
                             categories: seq<string>, isActive: bool, sellerId: ObjectId)

  /** `model.CreateProduct`: the request of the transactional create. */
  datatype CreateProductReq = CreateProductReq(name: string, description: string, price: Price,
                                               categories: seq<string>, isActive: bool, sellerId: ObjectId,
                                               quantity: int)

  const ErrProductNotFound := Error("product not found")
  const ErrNoProductWithId := Error("no product found with the given ID")

  type Store = map<ObjectId, Product>

  /** Every stored product carries its own key as `id`. */
  predicate Keyed(s: Store) {
    forall k | k in s :: s[k].id == k
  }

  /** The product a create request describes, with the given id. */
  function FromRequest(req: CreateProductReq, id: ObjectId): (p: Product)
    ensures p.id == id
  {
    Product(id, req.name, req.description, req.price, req.categories, req.isActive, req.sellerId)
  }

  /** `CreateProduct(req)`: a fresh product with the request's fields but not
      its id is inserted; the driver stores it under the id it generates,
      `newId`, and does not write that id back, so the product returned has the
      zero id. A failed insert returns no product and changes nothing. */
  function Created(products: Store, req: Product, newId: ObjectId, fault: Option<Error>): (r: (Store, Option<Product>, Option<Error>))
    ensures r.2.None? <==> fault.None? && newId !in products
    ensures r.2.Some? ==> r.0 == products && r.1 == None
    ensures fault.Some? ==> r.2 == fault
    ensures r.2.None? ==> r.0 == products[newId := req.(id := newId)] && r.1 == Some(req.(id := NilObjectId))
    ensures Keyed(products) ==> Keyed(r.0)
  {
    var newProduct := req.(id := NilObjectId);
    var (docs, err) := Mongo.InsertOne(products, newId, newProduct.(id := newId), fault);
    if err.Some? then (products, None, err) else (docs, Some(newProduct), None)
  }

  /** The state the transaction closure of `CreateProductWithTransaction`
      works on: the collection and the captured `newProduct` pointer. */
  datatype TxState = TxState(products: Store, newProduct: Option<Product>)

  /** The closure passed to `Transaction`: one insert (with the outer context,
      so outside the session), then the inserted id is read from the result.
      On a failed insert the result is nil and reading it panics; the panic's
      cause is `ErrNilDereference` and there is no product. */
  function InsertNewProduct(req: CreateProductReq, newId: ObjectId, fault: Option<Error>): (fn: TxState -> (TxState, Mongo.Exit))
    ensures forall s: TxState :: fn(s).1 == if InsertSucceeds(s.products, newId, fault) then Mongo.Normal(None)
                                            else Mongo.Panic(ErrNilDereference)
    ensures forall s: TxState :: InsertSucceeds(s.products, newId, fault) ==>
              fn(s).0 == TxState(s.products[newId := FromRequest(req, newId)], Some(FromRequest(req, newId)))
    ensures forall s: TxState :: !InsertSucceeds(s.products, newId, fault) ==> fn(s).0 == TxState(s.products, None)
  {
    (s: TxState) =>
      var (docs, err) := Mongo.InsertOne(s.products, newId, FromRequest(req, newId), fault);
      if err.Some? then (TxState(s.products, None), Mongo.Panic(ErrNilDereference))
      else (TxState(docs, Some(FromRequest(req, newId))), Mongo.Normal(None))
  }

  /** Whether the insert inside the transaction succeeds. */
  predicate InsertSucceeds(products: Store, newId: ObjectId, fault: Option<Error>) {
    fault.None? && newId !in products
  }

  /** `CreateProductWithTransaction(req)`: the product persists exactly when
      the transaction ran its closure and the insert succeeded; a failed commit
      is reported but does not remove it. Success returns the product under the
      inserted id. */
  function CreatedInTransaction(products: Store, req: CreateProductReq, newId: ObjectId, insertFault: Option<Error>,
                                f: Mongo.SessionFaults): (r: (Store, Option<Product>, Option<Error>))
    ensures r.0 == if Mongo.RunsFn(f) && InsertSucceeds(products, newId, insertFault)
                   then products[newId := FromRequest(req, newId)] else products
    ensures r.2.None? <==> Mongo.RunsFn(f) && InsertSucceeds(products, newId, insertFault) && f.commit.None?
    ensures r.1.Some? <==> Mongo.RunsFn(f) && InsertSucceeds(products, newId, insertFault)
    ensures r.1.Some? ==> r.1.value == FromRequest(req, newId) && r.2 == f.commit
    ensures !Mongo.RunsFn(f) ==> r.2 == if f.startSession.Some? then f.startSession else f.startTransaction
    ensures Mongo.RunsFn(f) && !InsertSucceeds(products, newId, insertFault) ==> r.2 == Some(ErrNilDereference)
    ensures Keyed(products) ==> Keyed(r.0)
  {
    var (s, err) := Mongo.TransactionResult(InsertNewProduct(req, newId, insertFault), TxState(products, None), f);
    (s.products, s.newProduct, err)
  }

  /** `productRepository`: the client and the `Products` collection. */
  class ProductRepository {
    const db: Mongo.Client
    var products: Store

    ghost predicate Valid()
      reads this
    {
      Keyed(products)
    }

    constructor (db: Mongo.Client, products: Store)
      requires Keyed(products)
      ensures Valid() && this.db == db && this.products == products
    {
      this.db := db;
      this.products := products;
    }

    method CreateProduct(req: Product, newId: ObjectId, fault: Option<Error>) returns (p: Option<Product>, err: Option<Error>)
      requires Valid()
      modifies this
      ensures Valid()
      ensures (products, p, err) == Created(old(products), req, newId, fault)
    {
      var newProduct := req.(id := NilObjectId);
      var (docs, e) := Mongo.InsertOne(products, newId, newProduct.(id := newId), fault);
      if e.Some? {
        return None, e;
      }
      products := docs;
      return Some(newProduct), None;
    }

    method RollbackProduct(id: ObjectId, fault: Option<Error>) returns (err: Option<Error>)
      requires Valid()
      modifies this
      ensures Valid()
      ensures err.None? <==> fault.None? && id in old(products)
      ensures fault.Some? ==> err == fault
      ensures fault.None? && id !in old(products) ==> err == Some(ErrProductNotFound)
      ensures err.None? ==> products == old(products) - {id}
      ensures err.Some? ==> products == old(products)
    {
      err := Delete(id, fault, ErrProductNotFound);
    }

    method CreateProductWithTransaction(req: CreateProductReq, newId: ObjectId, insertFault: Option<Error>, f: Mongo.SessionFaults)
      returns (p: Option<Product>, err: Option<Error>)
      requires Valid()
      modifies this, db
      ensures Valid()
      ensures (products, p, err) == CreatedInTransaction(old(products), req, newId, insertFault, f)
      ensures db.steps == old(db.steps) + Mongo.TransactionSteps(f,
                            if InsertSucceeds(old(products), newId, insertFault) then Mongo.Normal(None) else Mongo.Panic(ErrNilDereference))
    {
      var s;
      s, err := db.Transaction(InsertNewProduct(req, newId, insertFault), TxState(products, None), f);
      products := s.products;
      p := s.newProduct;
    }

    /** `removeProduct`: the same delete with a different not-found message. */
    method RemoveProduct(id: ObjectId, fault: Option<Error>) returns (err: Option<Error>)
      requires Valid()
      modifies this
      ensures Valid()
      ensures err.None? <==> fault.None? && id in old(products)
      ensures fault.Some? ==> err == fault
      ensures fault.None? && id !in old(products) ==> err == Some(ErrNoProductWithId)
      ensures err.None? ==> products == old(products) - {id}
      ensures err.Some? ==> products == old(products)
    {
      err := Delete(id, fault, ErrNoProductWithId);
    }

    /** `DeleteOne` by `_id`, then the `DeletedCount == 0` check. */
    method Delete(id: ObjectId, fault: Option<Error>, notFound: Error) returns (err: Option<Error>)
      requires Valid()
      modifies this
      ensures Valid()
      ensures (products, err) == Mongo.DeleteById(old(products), id, fault, notFound)
    {
      var (docs, result) := Mongo.DeleteOne(products, id, fault);
      if result.Err? {
        return Some(result.error);
      }
      if result.value == 0 {
        return Some(notFound);
      }
      products := docs;
      return None;
    }
  }
}
