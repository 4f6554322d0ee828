/** modules/product/useCase/product.go: the product use case, which forwards
    to the repository, except for `RollbackProduct`, which calls itself. */
module ProductUsecase {
  import opened Wrappers
  import opened ObjectIds
  import Mongo
  import opened ProductRepository

  class ProductUsecase {
    const repo: ProductRepository

    constructor (repo: ProductRepository)
      ensures this.repo == repo
    {
      this.repo := repo;
    }

    /** One repository call with the request unchanged; its result is returned. */
    method CreateProduct(req: Product, newId: ObjectId, fault: Option<Error>) returns (p: Option<Product>, err: Option<Error>)
      requires repo.Valid()
      modifies repo
      ensures repo.Valid()
      ensures (repo.products, p, err) == Created(old(repo.products), req, newId, fault)
    {
      p, err := repo.CreateProduct(req, newId, fault);
    }

    /** One repository call; its result is returned. */
    method CreateProductWithTransaction(req: CreateProductReq, newId: ObjectId, insertFault: Option<Error>, f: Mongo.SessionFaults)
      returns (p: Option<Product>, err: Option<Error>)
      requires repo.Valid()
      modifies repo, repo.db
      ensures repo.Valid()
      ensures (repo.products, p, err) == CreatedInTransaction(old(repo.products), req, newId, insertFault, f)
      ensures repo.db.steps == old(repo.db.steps) + Mongo.TransactionSteps(f,
                                 if InsertSucceeds(old(repo.products), newId, insertFault) then Mongo.Normal(None)
                                 else Mongo.Panic(ErrNilDereference))
    {
      p, err := repo.CreateProductWithTransaction(req, newId, insertFault, f);
    }

    /** `u.RollbackProduct(productId)` calls itself with the same id and never
        reaches the repository. `depth` counts the stack frames left; when they
        run out Go aborts the process, so no call returns, and since nothing is
        modified the product store is never touched. */
    method RollbackProduct(id: ObjectId, depth: nat) returns (o: Outcome)
      ensures o == Diverged
      decreases depth
    {
      if depth == 0 {
        return Diverged;
      }
      o := RollbackProduct(id, depth - 1);
    }
  }
}
