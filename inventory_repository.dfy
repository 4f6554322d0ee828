/** modules/inventory/repository/inventory.go: the `Inventories` collection,
    kept as a map from `_id` to record, and the operations on it. */
module InventoryRepository {
  import opened Wrappers
  import opened ObjectIds
  import Mongo

  /** `model.Inventory` without its time stamps. */
  datatype Inventory = Inventory(id: ObjectId, productId: ObjectId, quantity: int, version: int)

  /** `model.AddInventoryReq`. */
  datatype AddInventoryReq = AddInventoryReq(productId: ObjectId, quantity: int)

  /** `model.AddInventoryFailedEvent`: the payload of the failure event. */
  datatype AddInventoryFailedEvent = AddInventoryFailedEvent(productId: string)

  const ErrNoProductWithId := Error("no product found with the given ID")

  type Store = map<ObjectId, Inventory>

  /** Every stored record carries its own key as `id`. */
  predicate Keyed(s: Store) {
    forall k | k in s :: s[k].id == k
  }

  /** The record an add request describes: the request's product and
      quantity, version 1, under the given id. */
  function NewInventory(req: AddInventoryReq, id: ObjectId): (inv: Inventory)
    ensures inv.id == id && inv.productId == req.productId && inv.quantity == req.quantity && inv.version == 1
  {
    Inventory(id, req.productId, req.quantity, 1)
  }

  /** `AddInventory(req)`: one record with version 1 is inserted under the id
      the driver generates, `newId`; nothing checks for a record of the same
      product. The record returned has the zero id, as the driver does not write
      the generated id back. A failed insert returns no record and the error. */
  function Added(inventories: Store, req: AddInventoryReq, newId: ObjectId, fault: Option<Error>): (r: (Store, Option<Inventory>, Option<Error>))
    ensures r.2.None? <==> fault.None? && newId !in inventories
    ensures fault.Some? ==> r.2 == fault
    ensures r.2.Some? ==> r.0 == inventories && r.1 == None
    ensures r.2.None? ==> r.0 == inventories[newId := NewInventory(req, newId)] && r.1 == Some(NewInventory(req, NilObjectId))
    ensures Keyed(inventories) ==> Keyed(r.0)
  {
    var newInventory := NewInventory(req, NilObjectId);
    var (docs, err) := Mongo.InsertOne(inventories, newId, newInventory.(id := newId), fault);
    if err.Some? then (inventories, None, err) else (docs, Some(newInventory), None)
  }

  /** The closure of `AddInventoryWithTransaction`: one insert (outside the
      session) whose error is the closure's. The record it builds is bound to a
      new, inner `newInventory`, so it never reaches the caller. */
  function InsertNewInventory(req: AddInventoryReq, newId: ObjectId, fault: Option<Error>): (fn: Store -> (Store, Mongo.Exit))
    ensures forall s: Store :: fn(s).1.Normal? && (fn(s).1.err.None? <==> fault.None? && newId !in s)
    ensures forall s: Store :: fn(s).1.err.None? ==> fn(s).0 == s[newId := NewInventory(req, newId)]
    ensures forall s: Store :: fn(s).1.err.Some? ==> fn(s).0 == s
  {
    (s: Store) =>
      var (docs, err) := Mongo.InsertOne(s, newId, NewInventory(req, newId), fault);
      (docs, Mongo.Normal(err))
  }

  /** `AddInventoryWithTransaction(req)`: the insert runs when the session and
      the transaction start, and its record stays even if the commit fails; the
      record returned is nil on every path, success included. */
  function AddedInTransaction(inventories: Store, req: AddInventoryReq, newId: ObjectId, insertFault: Option<Error>,
                              f: Mongo.SessionFaults): (r: (Store, Option<Inventory>, Option<Error>))
    ensures r.1 == None
    ensures r.0 == if Mongo.RunsFn(f) && insertFault.None? && newId !in inventories
                   then inventories[newId := NewInventory(req, newId)] else inventories
    ensures r.2.None? <==> Mongo.RunsFn(f) && insertFault.None? && newId !in inventories && f.commit.None?
    ensures Mongo.RunsFn(f) && insertFault.Some? ==> r.2 == insertFault
    ensures Mongo.RunsFn(f) && insertFault.None? && newId in inventories ==> r.2 == Some(ErrDuplicateKey)
    ensures Mongo.RunsFn(f) && insertFault.None? && newId !in inventories ==> r.2 == f.commit
    ensures !Mongo.RunsFn(f) ==> r.2 == if f.startSession.Some? then f.startSession else f.startTransaction
  {
    var newInventory: Option<Inventory> := None;
    var (s, err) := Mongo.TransactionResult(InsertNewInventory(req, newId, insertFault), inventories, f);
    (s, newInventory, err)
  }

  /** A BSON value as a filter compares it: values of different BSON types
      are never equal, so a string never matches an ObjectId. */
  datatype BsonValue = BString(s: string) | BObjectId(oid: ObjectId)

  /** The filter `{"product_id": filter}` selects the record. */
  predicate ProductIdMatches(inv: Inventory, filter: BsonValue) {
    BObjectId(inv.productId) == filter
  }

  /** `product_id` is stored as an ObjectId, so a string filter on it matches nothing. */
  lemma StringFilterNeverMatches(inventories: Store, productId: string)
    ensures forall k | k in inventories :: !ProductIdMatches(inventories[k], BString(productId))
  {
  }

  /** `FindOneAndUpdate` on `{"_id": id, "version": version}` with quantity set
      to `amount` and `$inc` on version, returning the updated document: only
      the record matching both id and version changes; an unknown id or a stale
      version finds no document and changes nothing. */
  function UpdatedOne(inventories: Store, id: ObjectId, amount: int, version: int, fault: Option<Error>): (r: (Store, Option<Inventory>, Option<Error>))
    ensures r.2.None? <==> fault.None? && id in inventories && inventories[id].version == version
    ensures fault.Some? ==> r.2 == fault
    ensures fault.None? && r.2.Some? ==> r.2 == Some(ErrNoDocuments)
    ensures r.2.Some? ==> r.0 == inventories && r.1 == None
    ensures r.2.None? ==> r.0.Keys == inventories.Keys && r.1 == Some(r.0[id])
                          && r.0[id] == inventories[id].(quantity := amount, version := version + 1)
                          && forall k | k in inventories && k != id :: r.0[k] == inventories[k]
    ensures Keyed(inventories) ==> Keyed(r.0)
  {
    if fault.Some? then (inventories, None, fault)
    else if id in inventories && inventories[id].version == version then
      var updated := inventories[id].(quantity := amount, version := inventories[id].version + 1);
      (inventories[id := updated], Some(updated), None)
    else (inventories, None, Some(ErrNoDocuments))
  }

  /** Two updates that expect the same version cannot both succeed: the first
      moves the version on. */
  lemma SameVersionUpdatesConflict(inventories: Store, id: ObjectId, a: int, b: int, version: int, fault: Option<Error>)
    requires UpdatedOne(inventories, id, a, version, None).2.None?
    ensures UpdatedOne(UpdatedOne(inventories, id, a, version, None).0, id, b, version, fault).2.Some?
    ensures UpdatedOne(UpdatedOne(inventories, id, a, version, None).0, id, b, version, fault).0
            == UpdatedOne(inventories, id, a, version, None).0
  {
    var after := UpdatedOne(inventories, id, a, version, None).0;
    assert after[id].version == version + 1;
  }

  /** Adding the same request twice leaves two records of that product. */
  lemma AddTwiceLeavesTwoRecords(inventories: Store, req: AddInventoryReq, id1: ObjectId, id2: ObjectId)
    requires id1 != id2 && id1 !in inventories && id2 !in inventories
    ensures var once := Added(inventories, req, id1, None).0;
            var twice := Added(once, req, id2, None).0;
            twice.Keys == inventories.Keys + {id1, id2}
            && twice[id1].productId == twice[id2].productId == req.productId
  {
    var once := Added(inventories, req, id1, None).0;
    assert id2 !in once;
  }

  /** `inventoryRepository`: the client and the `Inventories` collection. */
  class InventoryRepository {
    const db: Mongo.Client
    var inventories: Store

    ghost predicate Valid()
      reads this
    {
      Keyed(inventories)
    }

    constructor (db: Mongo.Client, inventories: Store)
      requires Keyed(inventories)
      ensures Valid() && this.db == db && this.inventories == inventories
    {
      this.db := db;
      this.inventories := inventories;
    }

    method AddInventory(req: AddInventoryReq, newId: ObjectId, fault: Option<Error>) returns (inv: Option<Inventory>, err: Option<Error>)
      requires Valid()
      modifies this
      ensures Valid()
      ensures (inventories, inv, err) == Added(old(inventories), req, newId, fault)
    {
      var newInventory := NewInventory(req, NilObjectId);
      var (docs, e) := Mongo.InsertOne(inventories, newId, newInventory.(id := newId), fault);
      if e.Some? {
        return None, e;
      }
      inventories := docs;
      return Some(newInventory), None;
    }

    method AddInventoryWithTransaction(req: AddInventoryReq, newId: ObjectId, insertFault: Option<Error>, f: Mongo.SessionFaults)
      returns (inv: Option<Inventory>, err: Option<Error>)
      requires Valid()
      modifies this, db
      ensures Valid()
      ensures (inventories, inv, err) == AddedInTransaction(old(inventories), req, newId, insertFault, f)
      ensures db.steps == old(db.steps) + Mongo.TransactionSteps(f,
                            Mongo.Normal(Mongo.InsertOne(old(inventories), newId, NewInventory(req, newId), insertFault).1))
    {
      var newInventory: Option<Inventory> := None;
      inventories, err := db.Transaction(InsertNewInventory(req, newId, insertFault), inventories, f);
      inv := newInventory;
    }

    /** `collection.FindOne(ctx, filter).Decode(...)` on `product_id`: a
        matching record, or `ErrNoDocuments` when none matches. */
    method FindOne(filter: BsonValue, fault: Option<Error>) returns (found: Option<Inventory>, err: Option<Error>)
      ensures found.Some? <==> err.None?
      ensures fault.Some? ==> err == fault
      ensures found.Some? ==> exists k | k in inventories :: inventories[k] == found.value && ProductIdMatches(found.value, filter)
      ensures fault.None? ==> (found.Some? <==> exists k | k in inventories :: ProductIdMatches(inventories[k], filter))
      ensures fault.None? && found.None? ==> err == Some(ErrNoDocuments)
    {
      if fault.Some? {
        return None, fault;
      }
      if k :| k in inventories && ProductIdMatches(inventories[k], filter) {
        return Some(inventories[k]), None;
      }
      return None, Some(ErrNoDocuments);
    }

    /** `FindOneInventoryByProductId(productId)`: the filter carries the id as
        a string, so it never matches and the lookup always fails. */
    method FindOneInventoryByProductId(productId: string, fault: Option<Error>) returns (inv: Option<Inventory>, err: Option<Error>)
      ensures inv == None
      ensures err == if fault.Some? then fault else Some(ErrNoDocuments)
    {
      var found, e := FindOne(BString(productId), fault);
      if e.Some? {
        return None, e;
      }
      return found, e;
    }

    method UpdateInventory(id: ObjectId, amount: int, version: int, fault: Option<Error>) returns (inv: Option<Inventory>, err: Option<Error>)
      requires Valid()
      modifies this
      ensures Valid()
      ensures (inventories, inv, err) == UpdatedOne(old(inventories), id, amount, version, fault)
    {
      if fault.Some? {
        return None, fault;
      }
      if id in inventories && inventories[id].version == version {
        var updated := inventories[id].(quantity := amount, version := inventories[id].version + 1);
        inventories := inventories[id := updated];
        return Some(updated), None;
      }
      return None, Some(ErrNoDocuments);
    }

    method RemoveInventory(id: ObjectId, fault: Option<Error>) returns (err: Option<Error>)
      requires Valid()
      modifies this
      ensures Valid()
      ensures err.None? <==> fault.None? && id in old(inventories)
      ensures fault.Some? ==> err == fault
      ensures fault.None? && id !in old(inventories) ==> err == Some(ErrNoProductWithId)
      ensures err.None? ==> inventories == old(inventories) - {id}
      ensures err.Some? ==> inventories == old(inventories)
    {
      var (docs, result) := Mongo.DeleteOne(inventories, id, fault);
      if result.Err? {
        return Some(result.error);
      }
      if result.value == 0 {
        return Some(ErrNoProductWithId);
      }
      inventories := docs;
      return None;
    }
  }
}
