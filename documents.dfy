/** The stored documents (models/base.ts, models/customer.ts, models/user.ts).
    The store is schemaless, so a document is a map from field names to JSON
    values; `Customer` and `User` are the typed views the models declare. */
module Documents {
  import opened Wrappers

  /** An opaque, store-assigned identifier. */
  type ObjectId = nat

  /** The values a document field or a JSON body can hold. `Oid` and `Date`
      are the BSON types the store adds to plain JSON. */
  datatype Json =
    | Null
    | Bool(b: bool)
    | Num(num: real)
    | Str(str: string)
    | Oid(id: ObjectId)
    | Date(time: int)
    | Arr(items: seq<Json>)
    | Obj(fields: map<string, Json>)

  type Doc = map<string, Json>

  const IdField: string := "_id"
  const CreatedAtField: string := "createdAt"
  const NameField: string := "name"
  const EmailField: string := "email"
  const AgeField: string := "age"
  const PasswordField: string := "password"

  /** `IBaseCollectionFields` with the customer fields. */
  datatype Customer = Customer(id: ObjectId, createdAt: Option<int>, name: string, email: string, age: real)

  /** `IBaseCollectionFields` with the user fields. The password is optional here
      because reads through the user repository drop it. */
  datatype User = User(id: ObjectId, createdAt: Option<int>, name: string, email: string, password: Option<string>)

  /** The optional `createdAt` field as a document fragment. */
  function CreatedAtPart(createdAt: Option<int>): (d: Doc)
    ensures CreatedAtField in d <==> createdAt.Some?
    ensures createdAt.Some? ==> d == map[CreatedAtField := Date(createdAt.value)]
  {
    if createdAt.Some? then map[CreatedAtField := Date(createdAt.value)] else map[]
  }

  /** The `{name, email, age}` object the customer controller builds. */
  function CustomerFields(name: string, email: string, age: real): (d: Doc)
    ensures d.Keys == {NameField, EmailField, AgeField}
  {
    map[NameField := Str(name), EmailField := Str(email), AgeField := Num(age)]
  }

  /** The `{name, email, password}` object passed to the user insert. */
  function UserFields(name: string, email: string, password: string): (d: Doc)
    ensures d.Keys == {NameField, EmailField, PasswordField}
  {
    map[NameField := Str(name), EmailField := Str(email), PasswordField := Str(password)]
  }

  function CustomerDoc(c: Customer): (d: Doc)
    ensures d.Keys == {IdField, NameField, EmailField, AgeField} + (if c.createdAt.Some? then {CreatedAtField} else {})
  {
    CustomerFields(c.name, c.email, c.age)[IdField := Oid(c.id)] + CreatedAtPart(c.createdAt)
  }

  function UserDoc(u: User): (d: Doc)
    ensures d.Keys == {IdField, NameField, EmailField}
                      + (if u.password.Some? then {PasswordField} else {})
                      + (if u.createdAt.Some? then {CreatedAtField} else {})
  {
    var base := map[IdField := Oid(u.id), NameField := Str(u.name), EmailField := Str(u.email)];
    (if u.password.Some? then base[PasswordField := Str(u.password.value)] else base) + CreatedAtPart(u.createdAt)
  }

  predicate OptionalDate(d: Doc) {
    CreatedAtField in d ==> d[CreatedAtField].Date?
  }

  function CreatedAtOf(d: Doc): Option<int>
    requires OptionalDate(d)
  {
    if CreatedAtField in d then Some(d[CreatedAtField].time) else None
  }

  /** Reads a document as a customer, or None when a field is missing or has the wrong type. */
  function AsCustomer(d: Doc): (c: Option<Customer>)
    ensures c.Some? <==> IdField in d && d[IdField].Oid? && NameField in d && d[NameField].Str?
                         && EmailField in d && d[EmailField].Str? && AgeField in d && d[AgeField].Num?
                         && OptionalDate(d)
  {
    if IdField in d && d[IdField].Oid? && NameField in d && d[NameField].Str?
       && EmailField in d && d[EmailField].Str? && AgeField in d && d[AgeField].Num? && OptionalDate(d)
    then Some(Customer(d[IdField].id, CreatedAtOf(d), d[NameField].str, d[EmailField].str, d[AgeField].num))
    else None
  }

  /** Reads a document as a user; an absent password reads as None. */
  function AsUser(d: Doc): (u: Option<User>)
    ensures u.Some? <==> IdField in d && d[IdField].Oid? && NameField in d && d[NameField].Str?
                         && EmailField in d && d[EmailField].Str?
                         && (PasswordField in d ==> d[PasswordField].Str?) && OptionalDate(d)
  {
    if IdField in d && d[IdField].Oid? && NameField in d && d[NameField].Str?
       && EmailField in d && d[EmailField].Str?
       && (PasswordField in d ==> d[PasswordField].Str?) && OptionalDate(d)
    then Some(User(d[IdField].id, CreatedAtOf(d), d[NameField].str, d[EmailField].str,
                   if PasswordField in d then Some(d[PasswordField].str) else None))
    else None
  }

  lemma CustomerRoundTrip(c: Customer)
    ensures AsCustomer(CustomerDoc(c)) == Some(c)
  {
    var d := CustomerDoc(c);
    assert d[IdField] == Oid(c.id) && d[NameField] == Str(c.name);
    assert d[EmailField] == Str(c.email) && d[AgeField] == Num(c.age);
  }

  /** A document holding exactly the customer fields is the image of its typed view. */
  lemma CustomerDocRoundTrip(d: Doc)
    requires AsCustomer(d).Some?
    requires d.Keys <= {IdField, CreatedAtField, NameField, EmailField, AgeField}
    ensures CustomerDoc(AsCustomer(d).value) == d
  {
    var e := CustomerDoc(AsCustomer(d).value);
    assert e.Keys == d.Keys;
    forall k | k in d ensures e[k] == d[k] {
    }
  }

  lemma UserRoundTrip(u: User)
    ensures AsUser(UserDoc(u)) == Some(u)
  {
    var d := UserDoc(u);
    assert d[IdField] == Oid(u.id) && d[NameField] == Str(u.name) && d[EmailField] == Str(u.email);
    assert u.password.Some? ==> d[PasswordField] == Str(u.password.value);
  }

  /** A document holding exactly the user fields is the image of its typed view. */
  lemma UserDocRoundTrip(d: Doc)
    requires AsUser(d).Some?
    requires d.Keys <= {IdField, CreatedAtField, NameField, EmailField, PasswordField}
    ensures UserDoc(AsUser(d).value) == d
  {
    var e := UserDoc(AsUser(d).value);
    assert e.Keys == d.Keys;
    forall k | k in d ensures e[k] == d[k] {
    }
  }
}
