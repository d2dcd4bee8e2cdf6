/** The document store the repositories talk to, as an in-memory table per
    collection name. Only the parts of the query language the repositories
    use are modelled: equality filters, `$set`, exclusion projections, a
    result limit, and the unique index on `_id`. */
module Store {
  import opened Wrappers
  import opened Documents

  /** An equality filter: a document matches when it holds every listed field
      with the listed value, so the empty filter `{}` matches every document. */
  type Filter = map<string, Json>

  predicate Matches(d: Doc, f: Filter) {
    forall k :: k in f ==> k in d && d[k] == f[k]
  }

  function IdFilter(id: Json): Filter {
    map[IdField := id]
  }

  function IdOf(d: Doc): Json {
    if IdField in d then d[IdField] else Null
  }

  lemma MatchesId(d: Doc, id: Json)
    ensures Matches(d, IdFilter(id)) <==> IdField in d && d[IdField] == id
  {
    assert IdField in IdFilter(id);
  }

  /** Errors the store raises: the server cannot be reached, a second document
      with the same `_id`, a `$set` that changes `_id`, an empty batch insert. */
  datatype Fault = Unavailable | DuplicateKey | ImmutableId | EmptyBatch

  /** A collection handle: the driver's handle names the collection it reads and writes. */
  datatype Handle = Handle(name: string)

  /** A JavaScript number as a result limit: NaN or an integer. */
  datatype Number = NaN | Finite(value: int)

  /** Find options: an optional limit and the fields an exclusion projection drops
      (`{projection: {password: 0}}` drops `password`). */
  datatype FindOptions = FindOptions(limit: Option<Number>, exclude: set<string>)

  datatype ReturnDocument = Before | After

  datatype InsertOneResult = InsertOneResult(acknowledged: bool, insertedId: Json)
  datatype InsertManyResult = InsertManyResult(acknowledged: bool, insertedCount: nat, insertedIds: seq<Json>)
  datatype DeleteResult = DeleteResult(deletedCount: nat)

  /** The position of the first document, in insertion order, that matches. */
  function FirstMatch(docs: seq<Doc>, f: Filter): (r: Option<nat>)
    ensures r.Some? ==> r.value < |docs| && Matches(docs[r.value], f)
    ensures r.Some? ==> forall j :: 0 <= j < r.value ==> !Matches(docs[j], f)
    ensures r.None? <==> forall j :: 0 <= j < |docs| ==> !Matches(docs[j], f)
  {
    if docs == [] then None
    else if Matches(docs[0], f) then Some(0)
    else
      match FirstMatch(docs[1..], f)
      case None => None
      case Some(i) => Some(i + 1)
  }

  /** Every matching document, in insertion order. */
  function Select(docs: seq<Doc>, f: Filter): (r: seq<Doc>)
    ensures |r| <= |docs|
    ensures forall d :: d in r ==> d in docs && Matches(d, f)
    ensures forall d :: d in docs && Matches(d, f) ==> d in r
  {
    if docs == [] then []
    else (if Matches(docs[0], f) then [docs[0]] else []) + Select(docs[1..], f)
  }

  /** Matches keep table order: selecting from two tables laid end to end is the
      selection from the first followed by the selection from the second. */
  lemma {:induction false} SelectAppend(a: seq<Doc>, b: seq<Doc>, f: Filter)
    ensures Select(a + b, f) == Select(a, f) + Select(b, f)
  {
    if a == [] {
      assert a + b == b;
    } else {
      assert (a + b)[0] == a[0] && (a + b)[1..] == a[1..] + b;
      var head := if Matches(a[0], f) then [a[0]] else [];
      assert Select(a + b, f) == head + Select(a[1..] + b, f);
      SelectAppend(a[1..], b, f);
      assert Select(a, f) == head + Select(a[1..], f);
      ConcatAssoc(head, Select(a[1..], f), Select(b, f));
    }
  }

  lemma ConcatAssoc(p: seq<Doc>, q: seq<Doc>, r: seq<Doc>)
    ensures p + (q + r) == (p + q) + r
  {
  }

  /** The empty filter selects the whole table in insertion order. */
  lemma {:induction false} SelectAll(docs: seq<Doc>)
    ensures Select(docs, map[]) == docs
  {
    if docs != [] {
      SelectAll(docs[1..]);
      assert Matches(docs[0], map[]);
      assert docs == [docs[0]] + docs[1..];
    }
  }

  function Abs(n: int): nat {
    if n < 0 then -n else n
  }

  /** A cursor limit: 0 or no limit returns everything, a negative limit acts as its absolute value. */
  function Take(docs: seq<Doc>, limit: Option<int>): (r: seq<Doc>)
    ensures r <= docs
    ensures |r| == if limit.None? || limit.value == 0 || |docs| <= Abs(limit.value) then |docs| else Abs(limit.value)
  {
    if limit.None? || limit.value == 0 || |docs| <= Abs(limit.value) then docs else docs[..Abs(limit.value)]
  }

  /** An exclusion projection drops the listed fields and keeps every other field unchanged. */
  function Project(d: Doc, exclude: set<string>): (r: Doc)
    ensures r.Keys == d.Keys - exclude
    ensures forall k :: k in r ==> r[k] == d[k]
  {
    d - exclude
  }

  function ProjectAll(docs: seq<Doc>, exclude: set<string>): (r: seq<Doc>)
    ensures |r| == |docs|
    ensures forall i :: 0 <= i < |r| ==> r[i] == Project(docs[i], exclude)
  {
    seq(|docs|, i requires 0 <= i < |docs| => Project(docs[i], exclude))
  }

  function Excluded(options: Option<FindOptions>): set<string> {
    if options.Some? then options.value.exclude else {}
  }

  predicate NoNaN(options: Option<FindOptions>) {
    options.Some? && options.value.limit.Some? ==> options.value.limit.value.Finite?
  }

  function LimitOf(options: Option<FindOptions>): Option<int>
    requires NoNaN(options)
  {
    if options.Some? && options.value.limit.Some? then Some(options.value.limit.value.value) else None
  }

  /** What `collection.findOne(filter, options)` yields: the first match, projected. */
  function FindOneIn(docs: seq<Doc>, f: Filter, options: Option<FindOptions>): (r: Option<Doc>)
    ensures r.None? <==> forall j :: 0 <= j < |docs| ==> !Matches(docs[j], f)
    ensures r.Some? ==> r.value == Project(docs[FirstMatch(docs, f).value], Excluded(options))
  {
    match FirstMatch(docs, f)
    case None => None
    case Some(i) => Some(Project(docs[i], Excluded(options)))
  }

  /** What `collection.find(filter, options).toArray()` yields. */
  function FindIn(docs: seq<Doc>, f: Filter, options: Option<FindOptions>): (r: seq<Doc>)
    requires NoNaN(options)
  {
    ProjectAll(Take(Select(docs, f), LimitOf(options)), Excluded(options))
  }

  predicate IdBelow(v: Json, bound: nat) {
    v.Oid? ==> v.id < bound
  }

  /** A table is well formed when every document has an `_id`, the `_id`s are
      distinct (the unique index), and generated ids stay below the counter. */
  predicate WellFormed(docs: seq<Doc>, bound: nat) {
    && (forall i :: 0 <= i < |docs| ==> IdField in docs[i] && IdBelow(docs[i][IdField], bound))
    && (forall i, j :: 0 <= i < j < |docs| ==> IdOf(docs[i]) != IdOf(docs[j]))
  }

  lemma WellFormedMonotone(docs: seq<Doc>, bound: nat, bound': nat)
    requires WellFormed(docs, bound) && bound <= bound'
    ensures WellFormed(docs, bound')
  {
    forall i | 0 <= i < |docs| ensures IdBelow(docs[i][IdField], bound') {
      assert IdBelow(docs[i][IdField], bound);
    }
  }

  /** No document of a well-formed table carries the next generated id. */
  lemma {:induction false} NextIdFresh(docs: seq<Doc>, bound: nat)
    requires WellFormed(docs, bound)
    ensures FirstMatch(docs, IdFilter(Oid(bound))).None?
  {
    forall j | 0 <= j < |docs| ensures !Matches(docs[j], IdFilter(Oid(bound))) {
      MatchesId(docs[j], Oid(bound));
      assert IdBelow(docs[j][IdField], bound);
    }
  }

  lemma {:induction false} AppendWellFormed(docs: seq<Doc>, d: Doc, bound: nat, bound': nat)
    requires WellFormed(docs, bound) && bound <= bound'
    requires IdField in d && IdBelow(d[IdField], bound')
    requires FirstMatch(docs, IdFilter(d[IdField])).None?
    ensures WellFormed(docs + [d], bound')
  {
    WellFormedMonotone(docs, bound, bound');
    var s := docs + [d];
    forall i, j | 0 <= i < j < |s| ensures IdOf(s[i]) != IdOf(s[j]) {
      if j == |docs| {
        MatchesId(docs[i], d[IdField]);
      }
    }
  }

  lemma {:induction false} ReplaceWellFormed(docs: seq<Doc>, i: nat, d: Doc, bound: nat)
    requires WellFormed(docs, bound) && i < |docs|
    requires IdField in d && d[IdField] == docs[i][IdField]
    ensures WellFormed(docs[i := d], bound)
  {
    var s := docs[i := d];
    forall k | 0 <= k < |s| ensures IdOf(s[k]) == IdOf(docs[k]) {
    }
  }

  /** The table without its `i`-th document. */
  function RemoveAt(docs: seq<Doc>, i: nat): (r: seq<Doc>)
    requires i < |docs|
    ensures |r| == |docs| - 1
    ensures forall k :: 0 <= k < |r| ==> r[k] == docs[if k < i then k else k + 1]
  {
    docs[..i] + docs[i + 1..]
  }

  /** Removing a document keeps the table well formed, and its `_id` no longer matches anything. */
  lemma {:induction false} RemoveWellFormed(docs: seq<Doc>, i: nat, bound: nat)
    requires WellFormed(docs, bound) && i < |docs|
    ensures WellFormed(RemoveAt(docs, i), bound)
    ensures FirstMatch(RemoveAt(docs, i), IdFilter(docs[i][IdField])).None?
  {
    var s := RemoveAt(docs, i);
    forall k | 0 <= k < |s| ensures !Matches(s[k], IdFilter(docs[i][IdField])) {
      MatchesId(s[k], docs[i][IdField]);
    }
  }

  /** Documents with their assigned ids, in batch order. */
  function WithIds(batch: seq<Doc>, ids: seq<Json>): (r: seq<Doc>)
    requires |ids| == |batch|
    ensures |r| == |batch|
  {
    seq(|batch|, k requires 0 <= k < |batch| => batch[k][IdField := ids[k]])
  }

  /** The `_id` an insert stores: the document's own, or a newly generated one. */
  function NewId(doc: Doc, next: ObjectId): Json {
    if IdField in doc then doc[IdField] else Oid(next)
  }

  /** The id an insert reported for `doc`: its own `_id`, or an ObjectId the
      generator produced at or after `start`. */
  predicate AssignedId(doc: Doc, id: Json, start: ObjectId) {
    if IdField in doc then id == doc[IdField] else id.Oid? && start <= id.id
  }

  /** Each of the first `|ids|` batch items was inserted under the id reported for it. */
  predicate AllAssigned(batch: seq<Doc>, ids: seq<Json>, start: ObjectId) {
    |ids| <= |batch| && forall k :: 0 <= k < |ids| ==> AssignedId(batch[k], ids[k], start)
  }

  lemma AssignedSnoc(batch: seq<Doc>, ids: seq<Json>, id: Json, start: ObjectId)
    requires AllAssigned(batch, ids, start) && |ids| < |batch|
    requires AssignedId(batch[|ids|], id, start)
    ensures AllAssigned(batch, ids + [id], start)
  {
  }

  /** `findOne`, with the error an unreachable server raises. */
  function FindOneOutcome(reachable: bool, docs: seq<Doc>, f: Filter, options: Option<FindOptions>): Result<Option<Doc>, Fault> {
    if reachable then Ok(FindOneIn(docs, f, options)) else Err(Unavailable)
  }

  /** `find(...).toArray()`, with the error an unreachable server raises. */
  function FindOutcome(reachable: bool, docs: seq<Doc>, f: Filter, options: Option<FindOptions>): Result<seq<Doc>, Fault>
    requires NoNaN(options)
  {
    if reachable then Ok(FindIn(docs, f, options)) else Err(Unavailable)
  }

  /** `insertOne(doc)`: the result and the table afterwards. The unique index on
      `_id` rejects an id the table already holds. */
  function InsertOutcome(reachable: bool, docs: seq<Doc>, next: ObjectId, doc: Doc, ack: bool)
    : (o: (Result<InsertOneResult, Fault>, seq<Doc>))
    ensures !reachable ==> o == (Err(Unavailable), docs)
    ensures o.0.Err? ==> o.1 == docs
    ensures o.0.Ok? ==>
      && o.0.value.acknowledged == ack
      && o.0.value.insertedId == NewId(doc, next)
      && FirstMatch(docs, IdFilter(NewId(doc, next))).None?
      && o.1 == docs + [doc[IdField := NewId(doc, next)]]
    ensures reachable && FirstMatch(docs, IdFilter(NewId(doc, next))).None? ==> o.0.Ok?
  {
    var id := NewId(doc, next);
    if !reachable then (Err(Unavailable), docs)
    else if FirstMatch(docs, IdFilter(id)).Some? then (Err(DuplicateKey), docs)
    else (Ok(InsertOneResult(ack, id)), docs + [doc[IdField := id]])
  }

  /** In a well-formed table an insert without its own `_id` always succeeds. */
  lemma GeneratedIdInserts(docs: seq<Doc>, next: ObjectId, doc: Doc, ack: bool)
    requires WellFormed(docs, next) && IdField !in doc
    ensures InsertOutcome(true, docs, next, doc, ack).0 == Ok(InsertOneResult(ack, Oid(next)))
  {
    NextIdFresh(docs, next);
  }

  /** `findOneAndUpdate(filter, {$set: patch}, {returnDocument})`: the result and the table afterwards. */
  function UpdateOutcome(reachable: bool, docs: seq<Doc>, f: Filter, patch: Doc, returnDocument: ReturnDocument)
    : (o: (Result<Option<Doc>, Fault>, seq<Doc>))
    ensures !reachable ==> o == (Err(Unavailable), docs)
    ensures o.0.Err? || o.0 == Ok(None) ==> o.1 == docs
    ensures reachable ==> (o.0 == Ok(None) <==> FirstMatch(docs, f).None?)
    ensures reachable && FirstMatch(docs, f).Some? ==>
      (o.0.Err? <==> IdField in patch && patch[IdField] != IdOf(docs[FirstMatch(docs, f).value]))
    ensures reachable && o.0.Err? ==> o.0 == Err(ImmutableId)
    ensures o.0.Ok? && o.0.value.Some? ==>
      var i := FirstMatch(docs, f).value;
      && o.1 == docs[i := docs[i] + patch]
      && IdOf(docs[i] + patch) == IdOf(docs[i])
      && o.0.value.value == (if returnDocument == After then docs[i] + patch else docs[i])
  {
    if !reachable then (Err(Unavailable), docs)
    else match FirstMatch(docs, f)
      case None => (Ok(None), docs)
      case Some(i) =>
        if IdField in patch && patch[IdField] != IdOf(docs[i]) then (Err(ImmutableId), docs)
        else (Ok(Some(if returnDocument == After then docs[i] + patch else docs[i])), docs[i := docs[i] + patch])
  }

  /** `deleteOne(filter)`: the result and the table afterwards. */
  function DeleteOutcome(reachable: bool, docs: seq<Doc>, f: Filter): (o: (Result<DeleteResult, Fault>, seq<Doc>))
    ensures !reachable ==> o == (Err(Unavailable), docs)
    ensures reachable ==> o.0.Ok? && o.0.value.deletedCount <= 1
    ensures reachable ==> (o.0.value.deletedCount == 1 <==> FirstMatch(docs, f).Some?)
    ensures o.0.Ok? && o.0.value.deletedCount == 1 ==> o.1 == RemoveAt(docs, FirstMatch(docs, f).value)
    ensures o.0.Ok? && o.0.value.deletedCount == 0 ==> o.1 == docs
  {
    if !reachable then (Err(Unavailable), docs)
    else match FirstMatch(docs, f)
      case None => (Ok(DeleteResult(0)), docs)
      case Some(i) => (Ok(DeleteResult(1)), RemoveAt(docs, i))
  }

  lemma WithIdsSnoc(batch: seq<Doc>, ids: seq<Json>, id: Json)
    requires |ids| < |batch|
    ensures WithIds(batch[..|ids| + 1], ids + [id]) == WithIds(batch[..|ids|], ids) + [batch[|ids|][IdField := id]]
  {
    var a := WithIds(batch[..|ids| + 1], ids + [id]);
    var b := WithIds(batch[..|ids|], ids) + [batch[|ids|][IdField := id]];
    assert |a| == |b|;
    forall k | 0 <= k < |a| ensures a[k] == b[k] {
    }
  }

  /** `find({})` without options returns the whole table, unprojected, in insertion order. */
  lemma FindAllIsTable(docs: seq<Doc>)
    ensures FindIn(docs, map[], None) == docs
  {
    SelectAll(docs);
    var r := FindIn(docs, map[], None);
    forall i | 0 <= i < |docs| ensures r[i] == docs[i] {
      assert Project(docs[i], {}) == docs[i];
    }
  }

  /** After a successful delete by `_id` in a well-formed table, that `_id` is gone. */
  lemma DeletedIdGone(docs: seq<Doc>, bound: nat, id: Json)
    requires WellFormed(docs, bound)
    requires DeleteOutcome(true, docs, IdFilter(id)).0 == Ok(DeleteResult(1))
    ensures FirstMatch(DeleteOutcome(true, docs, IdFilter(id)).1, IdFilter(id)).None?
  {
    var i := FirstMatch(docs, IdFilter(id)).value;
    MatchesId(docs[i], id);
    RemoveWellFormed(docs, i, bound);
  }

  /** The store: one table per collection name, a generator of fresh ObjectIds,
      whether the server can be reached, and whether it acknowledges writes
      (its write concern). `handleRequests` counts the collection handles handed out. */
  class Database {
    var tables: map<string, seq<Doc>>
    var nextId: ObjectId
    var reachable: bool
    var acknowledges: bool
    ghost var handleRequests: nat

    ghost predicate Valid()
      reads this
    {
      forall n :: n in tables ==> WellFormed(tables[n], nextId)
    }

    /** The documents of a collection; a collection nobody has written to is empty. */
    function Docs(name: string): seq<Doc>
      reads this
    {
      if name in tables then tables[name] else []
    }

    lemma DocsWellFormed(name: string)
      requires Valid()
      ensures WellFormed(Docs(name), nextId)
    {
    }

    constructor (reachable: bool, acknowledges: bool)
      ensures Valid() && tables == map[] && handleRequests == 0
      ensures this.reachable == reachable && this.acknowledges == acknowledges
    {
      tables := map[];
      nextId := 0;
      this.reachable := reachable;
      this.acknowledges := acknowledges;
      handleRequests := 0;
    }

    /** `db.collection(name)`: a handle on the named collection; nothing is read or written. */
    method Collection(name: string) returns (h: Handle)
      modifies this`handleRequests
      ensures h == Handle(name) && handleRequests == old(handleRequests) + 1
    {
      h := Handle(name);
      handleRequests := handleRequests + 1;
    }

    method FindOne(h: Handle, filter: Filter, options: Option<FindOptions>) returns (r: Result<Option<Doc>, Fault>)
      ensures r == FindOneOutcome(reachable, Docs(h.name), filter, options)
    {
      if !reachable {
        return Err(Unavailable);
      }
      r := Ok(FindOneIn(Docs(h.name), filter, options));
    }

    method Find(h: Handle, filter: Filter, options: Option<FindOptions>) returns (r: Result<seq<Doc>, Fault>)
      requires NoNaN(options)
      ensures r == FindOutcome(reachable, Docs(h.name), filter, options)
    {
      if !reachable {
        return Err(Unavailable);
      }
      r := Ok(FindIn(Docs(h.name), filter, options));
    }

    /** Moves the id generator forward. */
    method Advance(next: ObjectId)
      requires Valid() && nextId <= next
      modifies this`nextId
      ensures Valid() && nextId == next
    {
      forall n | n in tables ensures WellFormed(tables[n], next) {
        WellFormedMonotone(tables[n], nextId, next);
      }
      nextId := next;
    }

    /** Stores `docs` as the table `name`. */
    method Write(name: string, docs: seq<Doc>)
      requires Valid() && WellFormed(docs, nextId)
      modifies this`tables
      ensures Valid() && Docs(name) == docs
      ensures forall n :: n != name ==> Docs(n) == old(Docs(n))
    {
      tables := tables[name := docs];
    }

    /** Inserts one document under its own `_id` or a generated one. */
    method InsertOne(h: Handle, doc: Doc) returns (r: Result<InsertOneResult, Fault>)
      requires Valid()
      modifies this`tables, this`nextId
      ensures Valid() && old(nextId) <= nextId
      ensures (r, Docs(h.name)) == InsertOutcome(reachable, old(Docs(h.name)), old(nextId), doc, acknowledges)
      ensures forall n :: n != h.name ==> Docs(n) == old(Docs(n))
      ensures reachable && IdField !in doc ==> r.Ok?
      ensures r.Ok? ==> AssignedId(doc, r.value.insertedId, old(nextId))
    {
      var docs := Docs(h.name);
      if IdField !in doc && reachable {
        GeneratedIdInserts(docs, nextId, doc, acknowledges);
      }
      var o := InsertOutcome(reachable, docs, nextId, doc, acknowledges);
      r := o.0;
      if r.Ok? {
        var id := r.value.insertedId;
        var next := if id.Oid? && id.id >= nextId then id.id + 1 else nextId;
        AppendWellFormed(docs, doc[IdField := id], nextId, next);
        Advance(next);
        Write(h.name, o.1);
      }
    }

    /** An ordered batch insert: documents go in one by one, in batch order, and
        the first failure stops the batch, keeping what was already inserted. */
    method InsertMany(h: Handle, batch: seq<Doc>) returns (r: Result<InsertManyResult, Fault>)
      requires Valid()
      modifies this`tables, this`nextId
      ensures Valid()
      ensures forall n :: n != h.name ==> Docs(n) == old(Docs(n))
      ensures old(Docs(h.name)) <= Docs(h.name) && |Docs(h.name)| <= |old(Docs(h.name))| + |batch|
      ensures !reachable ==> r == Err(Unavailable) && Docs(h.name) == old(Docs(h.name))
      ensures reachable && batch == [] ==> r == Err(EmptyBatch) && Docs(h.name) == old(Docs(h.name))
      ensures r.Ok? ==>
        && r.value.acknowledged == acknowledges && r.value.insertedCount == |batch|
        && |r.value.insertedIds| == |batch|
        && Docs(h.name) == old(Docs(h.name)) + WithIds(batch, r.value.insertedIds)
        && AllAssigned(batch, r.value.insertedIds, old(nextId))
      ensures reachable && batch != [] && (forall k :: 0 <= k < |batch| ==> IdField !in batch[k]) ==> r.Ok?
    {
      if !reachable {
        return Err(Unavailable);
      }
      if batch == [] {
        return Err(EmptyBatch);
      }
      r := InsertEach(h, batch);
    }

    /** The loop of a batch insert on a server that can be reached. */
    method InsertEach(h: Handle, batch: seq<Doc>) returns (r: Result<InsertManyResult, Fault>)
      requires Valid() && reachable
      modifies this`tables, this`nextId
      ensures Valid()
      ensures forall n :: n != h.name ==> Docs(n) == old(Docs(n))
      ensures old(Docs(h.name)) <= Docs(h.name) && |Docs(h.name)| <= |old(Docs(h.name))| + |batch|
      ensures r.Ok? ==>
        && r.value.acknowledged == acknowledges && r.value.insertedCount == |batch|
        && |r.value.insertedIds| == |batch|
        && Docs(h.name) == old(Docs(h.name)) + WithIds(batch, r.value.insertedIds)
        && AllAssigned(batch, r.value.insertedIds, old(nextId))
      ensures (forall k :: 0 <= k < |batch| ==> IdField !in batch[k]) ==> r.Ok?
    {
      var ids: seq<Json> := [];
      var i := 0;
      while i < |batch|
        invariant 0 <= i <= |batch| && |ids| == i
        invariant Valid()
        invariant forall n :: n != h.name ==> Docs(n) == old(Docs(n))
        invariant Docs(h.name) == old(Docs(h.name)) + WithIds(batch[..i], ids)
        invariant old(nextId) <= nextId
        invariant AllAssigned(batch, ids, old(nextId))
      {
        var step := InsertOne(h, batch[i]);
        if step.Err? {
          return Err(step.error);
        }
        WithIdsSnoc(batch, ids, step.value.insertedId);
        AssignedSnoc(batch, ids, step.value.insertedId, old(nextId));
        ids := ids + [step.value.insertedId];
        i := i + 1;
      }
      assert batch[..i] == batch;
      r := Ok(InsertManyResult(acknowledges, |batch|, ids));
    }

    /** `findOneAndUpdate` with a `$set` of `patch`. */
    method FindOneAndUpdate(h: Handle, filter: Filter, patch: Doc, returnDocument: ReturnDocument)
      returns (r: Result<Option<Doc>, Fault>)
      requires Valid()
      modifies this`tables
      ensures Valid()
      ensures (r, Docs(h.name)) == UpdateOutcome(reachable, old(Docs(h.name)), filter, patch, returnDocument)
      ensures forall n :: n != h.name ==> Docs(n) == old(Docs(n))
    {
      var docs := Docs(h.name);
      var o := UpdateOutcome(reachable, docs, filter, patch, returnDocument);
      r := o.0;
      if r.Ok? && r.value.Some? {
        var i := FirstMatch(docs, filter).value;
        ReplaceWellFormed(docs, i, docs[i] + patch, nextId);
        Write(h.name, o.1);
      }
    }

    /** `deleteOne(filter)`: removes the first match, if any. */
    method DeleteOne(h: Handle, filter: Filter) returns (r: Result<DeleteResult, Fault>)
      requires Valid()
      modifies this`tables
      ensures Valid()
      ensures (r, Docs(h.name)) == DeleteOutcome(reachable, old(Docs(h.name)), filter)
      ensures forall n :: n != h.name ==> Docs(n) == old(Docs(n))
    {
      var docs := Docs(h.name);
      var o := DeleteOutcome(reachable, docs, filter);
      r := o.0;
      if r.Ok? && r.value.deletedCount == 1 {
        RemoveWellFormed(docs, FirstMatch(docs, filter).value, nextId);
        Write(h.name, o.1);
      }
    }
  }
}
