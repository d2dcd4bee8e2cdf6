/** The generic repository over one collection (repositories/baseRepository.ts)
    and its two specialisations (repositories/customerRepository.ts,
    repositories/userRepository.ts). A specialisation is a collection name
    chosen by a named constructor; the user repository's own `findOne` is
    `FindUser`. */
module Repository {
  import opened Wrappers
  import opened Documents
  import opened Store

  const CustomersCollection: string := "customers"
  const UsersCollection: string := "users"

  /** The limit a NaN limit is replaced by. */
  const DefaultLimit: int := 25

  /** `createdAt` is set to `now` only when the body has none; every other field is kept. */
  function Stamp(body: Doc, now: int): (r: Doc)
    ensures CreatedAtField in body ==> r == body
    ensures CreatedAtField !in body ==> r.Keys == body.Keys + {CreatedAtField} && r[CreatedAtField] == Date(now)
    ensures forall k :: k in body ==> k in r && r[k] == body[k]
  {
    if CreatedAtField in body then body else body[CreatedAtField := Date(now)]
  }

  /** The options `find` hands to the store: a NaN limit becomes 25, anything else passes through. */
  function NormalizeLimit(options: Option<FindOptions>): (r: Option<FindOptions>)
    ensures NoNaN(r)
    ensures options.None? ==> r.None?
    ensures options.Some? && options.value.limit == Some(NaN) ==>
      r == Some(FindOptions(Some(Finite(DefaultLimit)), options.value.exclude))
    ensures !(options.Some? && options.value.limit == Some(NaN)) ==> r == options
  {
    if options.Some? && options.value.limit == Some(NaN)
    then Some(options.value.(limit := Some(Finite(DefaultLimit))))
    else options
  }

  /** The options the user repository's `findOne` forwards: without options it
      excludes `password`; options the caller gives are passed unchanged. */
  function UserFindOptions(options: Option<FindOptions>): (r: Option<FindOptions>)
    ensures options.None? ==> r == Some(FindOptions(None, {PasswordField}))
    ensures options.Some? ==> r == options
  {
    if options.None? then Some(FindOptions(None, {PasswordField})) else options
  }

  class Repository {
    const collectionName: string
    const db: Database
    /** The lazily fetched collection handle. */
    var collection: Option<Handle>

    ghost predicate Valid()
      reads this, db
    {
      db.Valid() && (collection.Some? ==> collection.value == Handle(collectionName))
    }

    /** The documents of this repository's collection. */
    function Docs(): seq<Doc>
      reads db
    {
      db.Docs(collectionName)
    }

    constructor Customers(db: Database)
      requires db.Valid()
      ensures Valid() && this.db == db && collectionName == CustomersCollection && collection == None
    {
      this.db := db;
      collectionName := CustomersCollection;
      collection := None;
    }

    constructor Users(db: Database)
      requires db.Valid()
      ensures Valid() && this.db == db && collectionName == UsersCollection && collection == None
    {
      this.db := db;
      collectionName := UsersCollection;
      collection := None;
    }

    /** Asks the store for a handle only while none is cached; afterwards returns the cached one. */
    method GetCollection() returns (h: Handle)
      requires Valid()
      modifies this`collection, db`handleRequests
      ensures Valid() && h == Handle(collectionName) && collection == Some(h)
      ensures old(collection).Some? ==> h == old(collection).value && db.handleRequests == old(db.handleRequests)
      ensures old(collection).None? ==> db.handleRequests == old(db.handleRequests) + 1
    {
      if collection.None? {
        var c := db.Collection(collectionName);
        collection := Some(c);
      }
      h := collection.value;
    }

    /** The handle inserts use: asked for on every call, never cached. */
    method GetCollectionForInsert() returns (h: Handle)
      modifies db`handleRequests
      ensures h == Handle(collectionName) && db.handleRequests == old(db.handleRequests) + 1
    {
      h := db.Collection(collectionName);
    }

    /** The first matching document; options reach the store only when given. */
    method FindOne(filter: Filter, options: Option<FindOptions>) returns (r: Result<Option<Doc>, Fault>)
      requires Valid()
      modifies this`collection, db`handleRequests
      ensures Valid() && collection == Some(Handle(collectionName))
      ensures r == FindOneOutcome(db.reachable, Docs(), filter, options)
    {
      var c := GetCollection();
      if options.Some? {
        r := db.FindOne(c, filter, options);
        return;
      }
      r := db.FindOne(c, filter, None);
    }

    /** `$set`s `patch` on the first match and returns the document after the
        update unless the caller asks for the one before. */
    method FindByIdAndUpdate(filter: Filter, patch: Doc, returnDocument: Option<ReturnDocument>)
      returns (r: Result<Option<Doc>, Fault>)
      requires Valid()
      modifies this`collection, db`handleRequests, db`tables
      ensures Valid() && collection == Some(Handle(collectionName))
      ensures (r, Docs()) == UpdateOutcome(db.reachable, old(Docs()), filter, patch, returnDocument.GetOr(After))
      ensures forall n :: n != collectionName ==> db.Docs(n) == old(db.Docs(n))
    {
      var c := GetCollection();
      r := db.FindOneAndUpdate(c, filter, patch, returnDocument.GetOr(After));
    }

    /** Every matching document in insertion order; a NaN limit is replaced by 25 first. */
    method Find(filter: Filter, options: Option<FindOptions>) returns (r: Result<seq<Doc>, Fault>)
      requires Valid()
      modifies this`collection, db`handleRequests
      ensures Valid() && collection == Some(Handle(collectionName))
      ensures r == FindOutcome(db.reachable, Docs(), filter, NormalizeLimit(options))
    {
      var c := GetCollection();
      if options.Some? {
        var opts := options.value;
        if opts.limit.Some? && opts.limit.value.NaN? {
          opts := opts.(limit := Some(Finite(DefaultLimit)));
        }
        r := db.Find(c, filter, Some(opts));
        return;
      }
      r := db.Find(c, filter, None);
    }

    /** Stamps `createdAt` when absent and inserts the body. */
    method InsertOne(body: Doc, now: int) returns (r: Result<InsertOneResult, Fault>)
      requires Valid()
      modifies db`handleRequests, db`tables, db`nextId
      ensures Valid() && old(db.nextId) <= db.nextId
      ensures (r, Docs()) == InsertOutcome(db.reachable, old(Docs()), old(db.nextId), Stamp(body, now), db.acknowledges)
      ensures forall n :: n != collectionName ==> db.Docs(n) == old(db.Docs(n))
      ensures db.reachable && IdField !in body ==> r.Ok?
    {
      var c := GetCollectionForInsert();
      var stamped := body;
      if CreatedAtField !in stamped {
        stamped := stamped[CreatedAtField := Date(now)];
      }
      r := db.InsertOne(c, stamped);
    }

    /** Stamps `createdAt` on every item of the batch that lacks it, in place,
        then inserts the batch in order. The clock is read once per item:
        `nows[k]` is what `new Date()` gives while item `k` is visited. After a
        successful batch every item carries the `_id` it was stored under, which
        the driver writes into the caller's objects. */
    method InsertMany(body: array<Doc>, nows: seq<int>) returns (r: Result<InsertManyResult, Fault>)
      requires Valid() && |nows| == body.Length
      modifies body, this`collection, db`handleRequests, db`tables, db`nextId
      ensures Valid()
      ensures r.Err? ==> forall k :: 0 <= k < body.Length ==> body[k] == Stamp(old(body[k]), nows[k])
      ensures forall n :: n != collectionName ==> db.Docs(n) == old(db.Docs(n))
      ensures old(Docs()) <= Docs() && |Docs()| <= |old(Docs())| + body.Length
      ensures !db.reachable ==> r == Err(Unavailable) && Docs() == old(Docs())
      ensures db.reachable && body.Length == 0 ==> r == Err(EmptyBatch) && Docs() == old(Docs())
      ensures r.Ok? ==>
        && r.value.acknowledged == db.acknowledges
        && r.value.insertedCount == body.Length && |r.value.insertedIds| == body.Length
        && (forall k :: 0 <= k < body.Length ==>
              body[k] == Stamp(old(body[k]), nows[k])[IdField := r.value.insertedIds[k]])
        && Docs() == old(Docs()) + body[..]
        && forall k :: 0 <= k < body.Length ==> AssignedId(old(body[k]), r.value.insertedIds[k], old(db.nextId))
      ensures db.reachable && body.Length > 0 && (forall k :: 0 <= k < body.Length ==> IdField !in old(body[k])) ==> r.Ok?
    {
      var c := GetCollection();
      var i := 0;
      while i < body.Length
        modifies body
        invariant 0 <= i <= body.Length
        invariant forall k :: 0 <= k < i ==> body[k] == Stamp(old(body[k]), nows[k])
        invariant forall k :: i <= k < body.Length ==> body[k] == old(body[k])
      {
        if CreatedAtField !in body[i] {
          body[i] := body[i][CreatedAtField := Date(nows[i])];
        }
        i := i + 1;
      }
      ghost var stamped := body[..];
      r := db.InsertMany(c, body[..]);
      if r.Ok? {
        var ids := r.value.insertedIds;
        forall k | 0 <= k < body.Length {
          body[k] := body[k][IdField := ids[k]];
        }
        assert body[..] == WithIds(stamped, ids);
      }
    }

    /** Removes the first match, if any. */
    method DeleteOne(filter: Filter) returns (r: Result<DeleteResult, Fault>)
      requires Valid()
      modifies this`collection, db`handleRequests, db`tables
      ensures Valid() && collection == Some(Handle(collectionName))
      ensures (r, Docs()) == DeleteOutcome(db.reachable, old(Docs()), filter)
      ensures forall n :: n != collectionName ==> db.Docs(n) == old(db.Docs(n))
    {
      var c := GetCollection();
      r := db.DeleteOne(c, filter);
    }

    /** The user repository's `findOne`: without options, `password` is projected away. */
    method FindUser(filter: Filter, options: Option<FindOptions>) returns (r: Result<Option<Doc>, Fault>)
      requires Valid() && collectionName == UsersCollection
      modifies this`collection, db`handleRequests
      ensures Valid() && collection == Some(Handle(collectionName))
      ensures r == FindOneOutcome(db.reachable, Docs(), filter, UserFindOptions(options))
      ensures options.None? && r.Ok? && r.value.Some? ==>
        var d := Docs()[FirstMatch(Docs(), filter).value];
        && r.value.value.Keys == d.Keys - {PasswordField}
        && forall k :: k in r.value.value ==> r.value.value[k] == d[k]
    {
      var opts := options;
      if opts.None? {
        opts := Some(FindOptions(None, {PasswordField}));
      }
      r := FindOne(filter, opts);
    }
  }
}
