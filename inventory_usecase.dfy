/** modules/inventory/useCase/inventory.go: the inventory use case and its
    mapping of a record to the `protobuf.InventoryInfo` message. */
module InventoryUsecase {
  import opened Wrappers
  import opened ObjectIds
  import opened InventoryRepository

  /** `protobuf.InventoryInfo` without its RFC 3339 time stamps. */
  datatype InventoryInfo = InventoryInfo(id: string, productId: string, quantity: int, version: int)

  const TwoTo31: int := 0x8000_0000
  const TwoTo32: int := 0x1_0000_0000

  /** Go's `int32(x)`: the low 32 bits of `x` read as two's complement. */
  function ToInt32(x: int): (r: int)
    ensures -TwoTo31 <= r < TwoTo31
    ensures -TwoTo31 <= x < TwoTo31 ==> r == x
    ensures (x - r) % TwoTo32 == 0
  {
    (x + TwoTo31) % TwoTo32 - TwoTo31
  }

  /** The field mapping both Proto methods use: ids as hex (which parse back
      to the ids), the quantity as `int32`, the version copied. */
  function ToInventoryInfo(inv: Inventory): (info: InventoryInfo)
    ensures ObjectIdFromHex(info.id) == Ok(inv.id)
    ensures ObjectIdFromHex(info.productId) == Ok(inv.productId)
    ensures info.version == inv.version
    ensures info.quantity == ToInt32(inv.quantity)
    ensures -TwoTo31 <= inv.quantity < TwoTo31 ==> info.quantity == inv.quantity
  {
    ObjectIdFromHexOfHex(inv.id);
    ObjectIdFromHexOfHex(inv.productId);
    InventoryInfo(Hex(inv.id), Hex(inv.productId), ToInt32(inv.quantity), inv.version)
  }

  /** The message built once the error check has passed; a nil record gives none. */
  function InfoOf(inv: Option<Inventory>): (info: Option<InventoryInfo>)
    ensures info.Some? <==> inv.Some?
    ensures inv.Some? ==> info.value == ToInventoryInfo(inv.value)
  {
    if inv.Some? then Some(ToInventoryInfo(inv.value)) else None
  }

  class InventoryUsecase {
    const repo: InventoryRepository

    constructor (repo: InventoryRepository)
      ensures this.repo == repo
    {
      this.repo := repo;
    }

    /** The repository's `AddInventory` result, unchanged. */
    method AddInventory(req: AddInventoryReq, newId: ObjectId, fault: Option<Error>) returns (inv: Option<Inventory>, err: Option<Error>)
      requires repo.Valid()
      modifies repo
      ensures repo.Valid()
      ensures (repo.inventories, inv, err) == Added(old(repo.inventories), req, newId, fault)
    {
      inv, err := repo.AddInventory(req, newId, fault);
    }

    /** The repository error and no message when the insert fails; otherwise
        the message of the record returned, whose id is the zero id. */
    method AddInventoryProto(req: AddInventoryReq, newId: ObjectId, fault: Option<Error>) returns (info: Option<InventoryInfo>, err: Option<Error>)
      requires repo.Valid()
      modifies repo
      ensures repo.Valid()
      ensures repo.inventories == Added(old(repo.inventories), req, newId, fault).0
      ensures err == Added(old(repo.inventories), req, newId, fault).2
      ensures err.Some? ==> info == None
      ensures err.None? ==> info == Some(ToInventoryInfo(NewInventory(req, NilObjectId)))
                            && info.value.id == Hex(NilObjectId) && info.value.version == 1
    {
      var inv;
      inv, err := repo.AddInventory(req, newId, fault);
      if err.Some? {
        return None, err;
      }
      info := InfoOf(inv);
    }

    /** The lookup's error passed through unchanged; since the lookup never
        finds a record, no message is ever built. */
    method FindOneInventoryByProductIdProto(productId: string, fault: Option<Error>) returns (info: Option<InventoryInfo>, err: Option<Error>)
      ensures info == None
      ensures err == if fault.Some? then fault else Some(ErrNoDocuments)
    {
      var inv;
      inv, err := repo.FindOneInventoryByProductId(productId, fault);
      if err.Some? {
        return None, err;
      }
      info := InfoOf(inv);
    }
  }
}
