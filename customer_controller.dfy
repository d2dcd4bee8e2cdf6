/** The customer handlers (controllers/customerController.ts): body validation,
    one service call, and the status each outcome is answered with. */
module CustomerController {
  import opened Wrappers
  import opened Documents
  import opened Store
  import opened Repository
  import opened Http
  import opened Strings
  import CustomerService

  /** A body that passed `createCustomerSchema`; unknown keys are dropped. */
  datatype CustomerInput = CustomerInput(name: string, email: string, age: real)

  /** `createCustomerSchema.parse(body)`: `name` a string of JavaScript length at least 3,
      `email` a string the email check accepts, `age` a positive number. */
  function ParseCustomer(body: Json, isEmail: string -> bool): (r: Option<CustomerInput>)
    ensures r.Some? <==>
      && StrField(body, NameField).Some? && JsLength(StrField(body, NameField).value) >= 3
      && StrField(body, EmailField).Some? && isEmail(StrField(body, EmailField).value)
      && NumField(body, AgeField).Some? && NumField(body, AgeField).value > 0.0
    ensures r.Some? ==>
      r.value == CustomerInput(StrField(body, NameField).value, StrField(body, EmailField).value, NumField(body, AgeField).value)
  {
    var name := StrField(body, NameField);
    var email := StrField(body, EmailField);
    var age := NumField(body, AgeField);
    if name.None? || JsLength(name.value) < 3 then None
    else if email.None? || !isEmail(email.value) then None
    else if age.None? || age.value <= 0.0 then None
    else Some(CustomerInput(name.value, email.value, age.value))
  }

  /** The `{name, email, age, _id}` object an update `$set`s. */
  function UpdateFields(c: CustomerInput, id: ObjectId): (d: Doc)
    ensures d.Keys == {NameField, EmailField, AgeField, IdField}
    ensures d[IdField] == Oid(id)
  {
    CustomerFields(c.name, c.email, c.age)[IdField := Oid(id)]
  }

  /** `{error: 'Customer not found'}` with 404. */
  function NotFound(): Reply {
    ErrorReply(404, "Customer not found")
  }

  function InsertResultJson(saved: InsertOneResult): Json {
    Obj(map["acknowledged" := Bool(saved.acknowledged), "insertedId" := saved.insertedId])
  }

  /** create: 201 with the insert result; any thrown error is a 400. */
  function CreateReply(saved: Result<InsertOneResult, Fault>): (reply: Reply)
    ensures reply.status == 201 <==> saved.Ok?
    ensures saved.Ok? ==> reply.body == InsertResultJson(saved.value)
    ensures saved.Err? ==> reply == BadRequest()
  {
    if saved.Ok? then Reply(201, InsertResultJson(saved.value)) else BadRequest()
  }

  /** list: the documents as they are; a thrown error is a 500. */
  function ListReply(list: Result<seq<Doc>, Fault>): (reply: Reply)
    ensures reply.status == 200 <==> list.Ok?
    ensures list.Ok? ==>
      && reply.body.Arr? && |reply.body.items| == |list.value|
      && forall i :: 0 <= i < |list.value| ==> reply.body.items[i] == Obj(list.value[i])
    ensures list.Err? ==> reply == InternalError()
  {
    if list.Ok? then Reply(200, Arr(seq(|list.value|, i requires 0 <= i < |list.value| => Obj(list.value[i]))))
    else InternalError()
  }

  /** get and update: null is a 404, a document is answered as it is, a thrown error is a 500. */
  function FoundReply(found: Result<Option<Doc>, Fault>): (reply: Reply)
    ensures reply.status == 200 <==> found.Ok? && found.value.Some?
    ensures found.Ok? && found.value.Some? ==> reply.body == Obj(found.value.value)
    ensures reply == NotFound() <==> found == Ok(None)
    ensures reply == InternalError() <==> found.Err?
  {
    match found
    case Err(_) => InternalError()
    case Ok(None) => NotFound()
    case Ok(Some(d)) => Reply(200, Obj(d))
  }

  /** delete: false is a 404, true a confirmation, a thrown error a 500. */
  function DeleteReply(removed: Result<bool, Fault>): (reply: Reply)
    ensures reply == Reply(200, TextBody("message", "Customer deleted successfully")) <==> removed == Ok(true)
    ensures reply == NotFound() <==> removed == Ok(false)
    ensures reply == InternalError() <==> removed.Err?
  {
    match removed
    case Err(_) => InternalError()
    case Ok(false) => NotFound()
    case Ok(true) => Reply(200, TextBody("message", "Customer deleted successfully"))
  }

  /** `createCustomer`: an invalid body is answered with 400 before the store is asked for anything. */
  method CreateCustomer(repo: Repository, body: Json, isEmail: string -> bool, now: int) returns (reply: Reply)
    requires repo.Valid()
    modifies repo.db`handleRequests, repo.db`tables, repo.db`nextId
    ensures repo.Valid()
    ensures forall n :: n != repo.collectionName ==> repo.db.Docs(n) == old(repo.db.Docs(n))
    ensures ParseCustomer(body, isEmail).None? ==>
      && reply == BadRequest()
      && repo.Docs() == old(repo.Docs()) && repo.db.handleRequests == old(repo.db.handleRequests)
    ensures ParseCustomer(body, isEmail).Some? ==>
      var c := ParseCustomer(body, isEmail).value;
      var o := InsertOutcome(repo.db.reachable, old(repo.Docs()), old(repo.db.nextId),
                             Stamp(CustomerFields(c.name, c.email, c.age), now), repo.db.acknowledges);
      repo.Docs() == o.1 && reply == CreateReply(o.0)
  {
    var parsed := ParseCustomer(body, isEmail);
    if parsed.None? {
      return BadRequest();
    }
    var c := parsed.value;
    var saved := CustomerService.CreateCustomer(repo, CustomerFields(c.name, c.email, c.age), now);
    reply := CreateReply(saved);
  }

  /** `getAllCustomers` */
  method GetAllCustomers(repo: Repository) returns (reply: Reply)
    requires repo.Valid()
    modifies repo`collection, repo.db`handleRequests
    ensures repo.Valid()
    ensures reply == ListReply(if repo.db.reachable then Ok(repo.Docs()) else Err(Unavailable))
  {
    var customers := CustomerService.GetCustomerList(repo);
    reply := ListReply(customers);
  }

  /** `getCustomer`: an id the ObjectId constructor rejects is a 500, not a 404. */
  method GetCustomer(repo: Repository, idParam: string, parseId: string -> Option<ObjectId>) returns (reply: Reply)
    requires repo.Valid()
    modifies repo`collection, repo.db`handleRequests
    ensures repo.Valid()
    ensures parseId(idParam).None? ==> reply == InternalError()
    ensures parseId(idParam).Some? ==>
      reply == FoundReply(FindOneOutcome(repo.db.reachable, repo.Docs(), IdFilter(Oid(parseId(idParam).value)), None))
  {
    var id := parseId(idParam);
    if id.None? {
      return InternalError();
    }
    var customer := CustomerService.GetCustomer(repo, id.value);
    reply := FoundReply(customer);
  }

  /** `updateCustomer`: the body is validated first and a failure is a 500; only
      `name`, `email` and `age` are written, with `_id` set to the path id. */
  method UpdateCustomer(repo: Repository, idParam: string, body: Json, isEmail: string -> bool,
                        parseId: string -> Option<ObjectId>) returns (reply: Reply)
    requires repo.Valid()
    modifies repo`collection, repo.db`handleRequests, repo.db`tables
    ensures repo.Valid()
    ensures forall n :: n != repo.collectionName ==> repo.db.Docs(n) == old(repo.db.Docs(n))
    ensures ParseCustomer(body, isEmail).None? || parseId(idParam).None? ==>
      && reply == InternalError()
      && repo.Docs() == old(repo.Docs()) && repo.db.handleRequests == old(repo.db.handleRequests)
    ensures ParseCustomer(body, isEmail).Some? && parseId(idParam).Some? ==>
      var id := parseId(idParam).value;
      var o := UpdateOutcome(repo.db.reachable, old(repo.Docs()), IdFilter(Oid(id)),
                             UpdateFields(ParseCustomer(body, isEmail).value, id), After);
      repo.Docs() == o.1 && reply == FoundReply(o.0)
  {
    var parsed := ParseCustomer(body, isEmail);
    if parsed.None? {
      return InternalError();
    }
    var id := parseId(idParam);
    if id.None? {
      return InternalError();
    }
    var customer := CustomerService.UpdateCustomer(repo, id.value, UpdateFields(parsed.value, id.value));
    reply := FoundReply(customer);
  }

  /** `deleteCustomer` */
  method DeleteCustomer(repo: Repository, idParam: string, parseId: string -> Option<ObjectId>) returns (reply: Reply)
    requires repo.Valid()
    modifies repo`collection, repo.db`handleRequests, repo.db`tables
    ensures repo.Valid()
    ensures forall n :: n != repo.collectionName ==> repo.db.Docs(n) == old(repo.db.Docs(n))
    ensures parseId(idParam).None? ==> reply == InternalError() && repo.Docs() == old(repo.Docs())
    ensures parseId(idParam).Some? ==>
      var id := parseId(idParam).value;
      var o := DeleteOutcome(repo.db.reachable, old(repo.Docs()), IdFilter(Oid(id)));
      && repo.Docs() == o.1
      && reply == DeleteReply(if o.0.Ok? then Ok(o.0.value.deletedCount == 1) else Err(o.0.error))
  {
    var id := parseId(idParam);
    if id.None? {
      return InternalError();
    }
    var removed := CustomerService.RemoveCustomer(repo, id.value);
    reply := DeleteReply(removed);
  }

  /** Updating a stored customer answers 200 with a customer holding exactly the
      new name, email and age, under the same id and with its `createdAt` kept. */
  lemma {:induction false} UpdateReflectsNewValues(docs: seq<Doc>, id: ObjectId, c: CustomerInput)
    requires FirstMatch(docs, IdFilter(Oid(id))).Some?
    requires AsCustomer(docs[FirstMatch(docs, IdFilter(Oid(id))).value]).Some?
    ensures var o := UpdateOutcome(true, docs, IdFilter(Oid(id)), UpdateFields(c, id), After);
      && o.0.Ok? && o.0.value.Some?
      && FoundReply(o.0).status == 200
      && AsCustomer(o.0.value.value)
         == Some(Customer(id, AsCustomer(docs[FirstMatch(docs, IdFilter(Oid(id))).value]).value.createdAt, c.name, c.email, c.age))
  {
    var i := FirstMatch(docs, IdFilter(Oid(id))).value;
    var d := docs[i];
    MatchesId(d, Oid(id));
    var patch := UpdateFields(c, id);
    var e := d + patch;
    assert e[IdField] == Oid(id) && e[NameField] == Str(c.name) && e[EmailField] == Str(c.email) && e[AgeField] == Num(c.age);
    assert CreatedAtField !in patch;
    assert (CreatedAtField in e <==> CreatedAtField in d) && (CreatedAtField in d ==> e[CreatedAtField] == d[CreatedAtField]);
  }

  /** The customer a valid create stores is the document of a `Customer` with the
      given fields, the generated id and `createdAt` set to now. */
  lemma CreatedCustomerView(c: CustomerInput, now: int, id: ObjectId)
    ensures Stamp(CustomerFields(c.name, c.email, c.age), now)[IdField := Oid(id)]
         == CustomerDoc(Customer(id, Some(now), c.name, c.email, c.age))
    ensures AsCustomer(Stamp(CustomerFields(c.name, c.email, c.age), now)[IdField := Oid(id)])
         == Some(Customer(id, Some(now), c.name, c.email, c.age))
  {
    var d := Stamp(CustomerFields(c.name, c.email, c.age), now)[IdField := Oid(id)];
    var e := CustomerDoc(Customer(id, Some(now), c.name, c.email, c.age));
    assert d.Keys == e.Keys;
    CustomerRoundTrip(Customer(id, Some(now), c.name, c.email, c.age));
  }

  /** Updating or fetching an id no customer has answers 404 and writes nothing. */
  lemma MissingIdIsNotFound(docs: seq<Doc>, id: ObjectId, patch: Doc)
    requires forall j :: 0 <= j < |docs| ==> IdOf(docs[j]) != Oid(id)
    ensures UpdateOutcome(true, docs, IdFilter(Oid(id)), patch, After) == (Ok(None), docs)
    ensures FoundReply(FindOneOutcome(true, docs, IdFilter(Oid(id)), None)) == NotFound()
  {
    forall j | 0 <= j < |docs| ensures !Matches(docs[j], IdFilter(Oid(id))) {
      MatchesId(docs[j], Oid(id));
    }
  }
}
