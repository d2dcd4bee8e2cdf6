/** The customer service (services/customerService.ts): thin calls into the
    customer repository that map the store's results. */
module CustomerService {
  import opened Wrappers
  import opened Documents
  import opened Store
  import opened Repository

  /** `getCustomerList`: every stored customer, in insertion order. */
  method GetCustomerList(repo: Repository) returns (r: Result<seq<Doc>, Fault>)
    requires repo.Valid()
    modifies repo`collection, repo.db`handleRequests
    ensures repo.Valid()
    ensures r == if repo.db.reachable then Ok(repo.Docs()) else Err(Unavailable)
  {
    r := repo.Find(map[], None);
    FindAllIsTable(repo.Docs());
  }

  /** `getCustomer`: the customer with that `_id`, or null. */
  method GetCustomer(repo: Repository, id: ObjectId) returns (r: Result<Option<Doc>, Fault>)
    requires repo.Valid()
    modifies repo`collection, repo.db`handleRequests
    ensures repo.Valid()
    ensures r == FindOneOutcome(repo.db.reachable, repo.Docs(), IdFilter(Oid(id)), None)
    ensures !repo.db.reachable ==> r == Err(Unavailable)
    ensures repo.db.reachable ==> r.Ok?
    ensures r.Ok? && r.value.Some? ==> r.value.value in repo.Docs() && r.value.value[IdField] == Oid(id)
    ensures r.Ok? && r.value.None? ==> forall j :: 0 <= j < |repo.Docs()| ==> IdOf(repo.Docs()[j]) != Oid(id)
  {
    r := repo.FindOne(IdFilter(Oid(id)), None);
    if r.Ok? && r.value.Some? {
      var i := FirstMatch(repo.Docs(), IdFilter(Oid(id))).value;
      MatchesId(repo.Docs()[i], Oid(id));
      assert r.value.value == Project(repo.Docs()[i], {});
      assert r.value.value == repo.Docs()[i];
    }
    if r.Ok? && r.value.None? {
      forall j | 0 <= j < |repo.Docs()| ensures IdOf(repo.Docs()[j]) != Oid(id) {
        MatchesId(repo.Docs()[j], Oid(id));
      }
    }
  }

  /** `createCustomer`: one insert, stamped with `createdAt`, under a fresh id. */
  method CreateCustomer(repo: Repository, customer: Doc, now: int) returns (r: Result<InsertOneResult, Fault>)
    requires repo.Valid()
    modifies repo.db`handleRequests, repo.db`tables, repo.db`nextId
    ensures repo.Valid()
    ensures forall n :: n != repo.collectionName ==> repo.db.Docs(n) == old(repo.db.Docs(n))
    ensures (r, repo.Docs()) == InsertOutcome(repo.db.reachable, old(repo.Docs()), old(repo.db.nextId), Stamp(customer, now), repo.db.acknowledges)
    ensures repo.db.reachable && IdField !in customer ==>
      && r == Ok(InsertOneResult(repo.db.acknowledges, Oid(old(repo.db.nextId))))
      && repo.Docs() == old(repo.Docs()) + [Stamp(customer, now)[IdField := Oid(old(repo.db.nextId))]]
  {
    r := repo.InsertOne(customer, now);
  }

  /** `updateCustomer`: `$set`s the given fields on the customer with that `_id`
      and returns the record after the update, or null. */
  method UpdateCustomer(repo: Repository, id: ObjectId, customer: Doc) returns (r: Result<Option<Doc>, Fault>)
    requires repo.Valid()
    modifies repo`collection, repo.db`handleRequests, repo.db`tables
    ensures repo.Valid()
    ensures forall n :: n != repo.collectionName ==> repo.db.Docs(n) == old(repo.db.Docs(n))
    ensures (r, repo.Docs()) == UpdateOutcome(repo.db.reachable, old(repo.Docs()), IdFilter(Oid(id)), customer, After)
  {
    r := repo.FindByIdAndUpdate(IdFilter(Oid(id)), customer, None);
  }

  /** `removeCustomer`: true exactly when one document was deleted; the id is then gone. */
  method RemoveCustomer(repo: Repository, id: ObjectId) returns (r: Result<bool, Fault>)
    requires repo.Valid()
    modifies repo`collection, repo.db`handleRequests, repo.db`tables
    ensures repo.Valid()
    ensures forall n :: n != repo.collectionName ==> repo.db.Docs(n) == old(repo.db.Docs(n))
    ensures !repo.db.reachable ==> r == Err(Unavailable) && repo.Docs() == old(repo.Docs())
    ensures repo.db.reachable ==> r.Ok? && (r.value <==> FirstMatch(old(repo.Docs()), IdFilter(Oid(id))).Some?)
    ensures repo.Docs() == DeleteOutcome(repo.db.reachable, old(repo.Docs()), IdFilter(Oid(id))).1
    ensures r == Ok(false) ==> repo.Docs() == old(repo.Docs())
    ensures r == Ok(true) ==> FirstMatch(repo.Docs(), IdFilter(Oid(id))).None?
  {
    repo.db.DocsWellFormed(repo.collectionName);
    ghost var before := repo.Docs();
    ghost var bound := repo.db.nextId;
    var result := repo.DeleteOne(IdFilter(Oid(id)));
    if result.Err? {
      return Err(result.error);
    }
    r := Ok(result.value.deletedCount == 1);
    if r == Ok(true) {
      DeletedIdGone(before, bound, Oid(id));
    }
  }
}
