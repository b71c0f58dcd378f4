/**
 The customer service (backend/app.py): a collection of customer documents
 keyed by e-mail, with add, update, delete and a sorted listing. The document
 store is modelled as a sequence in its natural (insertion) order; "the first
 match" of a query is the first matching document in that order.
 */
module Directory {
  import opened Optional
  import opened Ordering
  import opened Sequences

  /** A customer as the service's schema declares it: name, e-mail and an integer favourite number. */
  datatype Record = Record(name: string, email: string, favNumber: int)

  /** A stored document: the record and the `_id` the store gave it. */
  datatype Document = Document(id: nat, customer: Record)

  /** A success status with its body, or the status and detail of an `HTTPException`. */
  datatype Response<T> = Ok(status: int, body: T) | Error(status: int, detail: string)

  const DuplicateDetail := "Customer with email already exists"
  const NotFoundDetail := "Customer not found"
  const InvalidKeyDetail := "Invalid sort key"
  const DeletedMessage := "Customer deleted successfully"

  /** The records of a list of documents, each without its `_id`. */
  function Strip(docs: seq<Document>): (r: seq<Record>)
    ensures |r| == |docs|
    ensures forall i :: 0 <= i < |docs| ==> r[i] == docs[i].customer
  {
    Map((d: Document) => d.customer, docs)
  }

  /** Some document of `docs` has e-mail `email`. */
  ghost predicate HasEmail(docs: seq<Document>, email: string) {
    exists i :: 0 <= i < |docs| && docs[i].customer.email == email
  }

  /** No two documents share an e-mail. */
  ghost predicate UniqueEmails(docs: seq<Document>) {
    forall i, j :: 0 <= i < j < |docs| ==> docs[i].customer.email != docs[j].customer.email
  }

  /** `find_one({'email': email})`: the position of the first document with that e-mail, if any. */
  function FindEmail(docs: seq<Document>, email: string): (r: Option<nat>)
    ensures r.Some? ==> r.value < |docs| && docs[r.value].customer.email == email
    ensures r.Some? ==> forall j :: 0 <= j < r.value ==> docs[j].customer.email != email
    ensures r.None? <==> !HasEmail(docs, email)
  {
    if docs == [] then
      None
    else if docs[0].customer.email == email then
      Some(0)
    else
      match FindEmail(docs[1..], email)
      case None =>
        assert forall j :: 1 <= j < |docs| ==> docs[j] == docs[1..][j - 1];
        None
      case Some(i) =>
        Some(i + 1)
  }

  /** Appending a document whose e-mail is new keeps the e-mails pairwise distinct. */
  lemma AppendKeepsEmailsUnique(docs: seq<Document>, d: Document)
    requires UniqueEmails(docs) && !HasEmail(docs, d.customer.email)
    ensures UniqueEmails(docs + [d])
  {
  }

  /** Overwriting a record keeps the e-mails distinct when the new e-mail is the old one or is not yet used. */
  lemma OverwriteKeepsEmailsUnique(docs: seq<Document>, i: nat, r: Record)
    requires UniqueEmails(docs) && i < |docs|
    requires r.email == docs[i].customer.email || !HasEmail(docs, r.email)
    ensures UniqueEmails(docs[i := Document(docs[i].id, r)])
  {
  }

  /**
   The update endpoint does not check the new e-mail: renaming Ann's e-mail to
   Bob's leaves two documents with one e-mail.
   */
  lemma UpdateCanDuplicateEmail()
    ensures var docs := [Document(0, Record("Ann", "ann@x.com", 1)), Document(1, Record("Bob", "bob@x.com", 2))];
            && UniqueEmails(docs)
            && FindEmail(docs, "ann@x.com") == Some(0)
            && !UniqueEmails(docs[0 := Document(0, Record("Ann", "bob@x.com", 1))])
  {
    var docs := [Document(0, Record("Ann", "ann@x.com", 1)), Document(1, Record("Bob", "bob@x.com", 2))];
    var after := docs[0 := Document(0, Record("Ann", "bob@x.com", 1))];
    assert after[0].customer.email == after[1].customer.email;
  }

  /** With distinct e-mails, deleting the first match leaves no document with that e-mail. */
  lemma DeleteRemovesOnlyCopy(docs: seq<Document>, email: string, i: nat)
    requires UniqueEmails(docs) && FindEmail(docs, email) == Some(i)
    ensures !HasEmail(docs[..i] + docs[i + 1..], email)
    ensures UniqueEmails(docs[..i] + docs[i + 1..])
  {
  }

  /** Every `_id` is below `bound` and no two documents share one. */
  ghost predicate IdsBelow(docs: seq<Document>, bound: nat) {
    && (forall i :: 0 <= i < |docs| ==> docs[i].id < bound)
    && (forall i, j :: 0 <= i < j < |docs| ==> docs[i].id != docs[j].id)
  }

  lemma RemoveKeepsIds(docs: seq<Document>, i: nat, bound: nat)
    requires IdsBelow(docs, bound) && i < |docs|
    ensures IdsBelow(docs[..i] + docs[i + 1..], bound)
  {
  }

  /** The keys the sort endpoint accepts. */
  datatype SortField = ByName | ByEmail | ByFavNumber

  function FieldName(f: SortField): string {
    match f
    case ByName => "name"
    case ByEmail => "email"
    case ByFavNumber => "fav_number"
  }

  /** The key check of the sort endpoint: the field named `key`, or nothing for any other string. */
  function ParseSortField(key: string): (r: Option<SortField>)
    ensures r.Some? ==> FieldName(r.value) == key
    ensures r.None? <==> forall f: SortField :: FieldName(f) != key
  {
    if key == "name" then Some(ByName)
    else if key == "email" then Some(ByEmail)
    else if key == "fav_number" then Some(ByFavNumber)
    else None
  }

  /** `active` is not a field of the schema and is not a sort key. */
  lemma ActiveIsNotASortKey()
    ensures ParseSortField("active") == None
  {
  }

  /** The value of field `f` of a record. */
  function FieldValue(f: SortField, r: Record): (v: Val)
    ensures v.Str? <==> f == ByName || f == ByEmail
    ensures v.Num? <==> f == ByFavNumber
  {
    match f
    case ByName => Str(r.name)
    case ByEmail => Str(r.email)
    case ByFavNumber => Num(r.favNumber)
  }

  /** Dropping `_id` from documents ordered by a field leaves the records ordered by it. */
  lemma StripKeepsOrder(f: SortField, docs: seq<Document>)
    requires Ordered(docs, (d: Document) => FieldValue(f, d.customer), false)
    ensures Ordered(Strip(docs), (c: Record) => FieldValue(f, c), false)
  {
    var out := Strip(docs);
    forall i, j | 0 <= i < j < |out|
      ensures NotAfter(FieldValue(f, out[i]), FieldValue(f, out[j]), false)
    {
      assert NotAfter(FieldValue(f, docs[i].customer), FieldValue(f, docs[j].customer), false);
    }
  }

  /** The loop that pops `_id` from every sorted document, in order. */
  method PopIds(docs: seq<Document>) returns (out: seq<Record>)
    ensures out == Strip(docs)
  {
    out := [];
    var i := 0;
    while i < |docs|
      invariant 0 <= i <= |docs|
      invariant |out| == i
      invariant forall k :: 0 <= k < i ==> out[k] == docs[k].customer
    {
      out := out + [docs[i].customer];
      i := i + 1;
    }
  }

  /** The customer collection of the service. */
  class CustomerCollection {
    /** The stored documents, in the store's natural order. */
    var docs: seq<Document>
    /** Stand-in for the store's `_id` generator: every `_id` in use is below it. */
    var nextId: nat

    ghost predicate Valid()
      reads this
    {
      IdsBelow(docs, nextId)
    }

    constructor ()
      ensures Valid() && docs == []
    {
      docs := [];
      nextId := 0;
    }

    /** What `GET /customers` lists: every record, without `_id`. */
    function Customers(): (r: seq<Record>)
      reads this
      ensures |r| == |docs|
      ensures forall i :: 0 <= i < |docs| ==> r[i] == docs[i].customer
    {
      Strip(docs)
    }

    /** `is_duplicate`: some stored record already has this e-mail. */
    function IsDuplicate(email: string): (r: bool)
      reads this
      ensures r <==> HasEmail(docs, email)
    {
      FindEmail(docs, email).Some?
    }

    /** `POST /customers`: 400 for a known e-mail, otherwise store the record and return it with 201. */
    method AddCustomer(c: Record) returns (r: Response<Record>)
      requires Valid()
      modifies this
      ensures Valid()
      ensures old(IsDuplicate(c.email)) ==>
        r == Error(400, DuplicateDetail) && docs == old(docs) && nextId == old(nextId)
      ensures !old(IsDuplicate(c.email)) ==>
        && r == Ok(201, c)
        && |docs| == |old(docs)| + 1
        && docs[..|old(docs)|] == old(docs)
        && docs[|old(docs)|].customer == c
        && Customers() == old(Customers()) + [c]
      ensures old(UniqueEmails(docs)) ==> UniqueEmails(docs)
    {
      if IsDuplicate(c.email) {
        return Error(400, DuplicateDetail);
      }
      var d := Document(nextId, c);
      if UniqueEmails(docs) {
        AppendKeepsEmailsUnique(docs, d);
      }
      docs := docs + [d];
      nextId := nextId + 1;
      assert Customers() == old(Customers()) + [c];
      r := Ok(201, c);
    }

    /**
     `PUT /customers/{email}`: 404 when no record has that e-mail; otherwise
     overwrite the fields of the first one with `newData` and return the merge
     of the stored record with `newData`, which, as `newData` sets every field
     and the reply drops `_id`, is `newData`.
     */
    method UpdateCustomer(email: string, newData: Record) returns (r: Response<Record>)
      requires Valid()
      modifies this
      ensures Valid() && nextId == old(nextId) && |docs| == |old(docs)|
      ensures !old(IsDuplicate(email)) ==> r == Error(404, NotFoundDetail) && docs == old(docs)
      ensures old(IsDuplicate(email)) ==>
        var i := FindEmail(old(docs), email).value;
        && r == Ok(200, newData)
        && docs[i] == Document(old(docs)[i].id, newData)
        && (forall j :: 0 <= j < |docs| && j != i ==> docs[j] == old(docs)[j])
        && Customers() == old(Customers())[i := newData]
    {
      match FindEmail(docs, email)
      case None =>
        r := Error(404, NotFoundDetail);
      case Some(i) =>
        docs := docs[i := Document(docs[i].id, newData)];
        r := Ok(200, newData);
    }

    /** `DELETE /customers/{email}`: remove the first record with that e-mail, or 404 when there is none. */
    method DeleteCustomer(email: string) returns (r: Response<string>)
      requires Valid()
      modifies this
      ensures Valid() && nextId == old(nextId)
      ensures !old(IsDuplicate(email)) ==> r == Error(404, NotFoundDetail) && docs == old(docs)
      ensures old(IsDuplicate(email)) ==>
        var i := FindEmail(old(docs), email).value;
        && r == Ok(200, DeletedMessage)
        && |docs| == |old(docs)| - 1
        && docs == old(docs)[..i] + old(docs)[i + 1..]
        && multiset(Customers()) + multiset{old(docs)[i].customer} == multiset(old(Customers()))
      ensures old(UniqueEmails(docs)) ==> UniqueEmails(docs) && !IsDuplicate(email)
    {
      match FindEmail(docs, email)
      case None =>
        r := Error(404, NotFoundDetail);
      case Some(i) =>
        var removed := docs[i];
        if UniqueEmails(docs) {
          DeleteRemovesOnlyCopy(docs, email, i);
        }
        MapRemoveAt((d: Document) => d.customer, docs, i);
        RemoveKeepsIds(docs, i, nextId);
        docs := docs[..i] + docs[i + 1..];
        r := Ok(200, DeletedMessage);
    }

    /**
     `GET /customers/sort/{by}`: 400 for a key outside name, e-mail and
     favourite number; otherwise every record, ascending by that key, each
     with its `_id` removed.
     */
    method SortCustomers(key: string) returns (r: Response<seq<Record>>)
      ensures r.Ok? <==> ParseSortField(key).Some?
      ensures r.Error? ==> r == Error(400, InvalidKeyDetail)
      ensures r.Ok? ==>
        && r.status == 200
        && multiset(r.body) == multiset(Customers())
        && Ordered(r.body, (c: Record) => FieldValue(ParseSortField(key).value, c), false)
    {
      var field := ParseSortField(key);
      if field.None? {
        return Error(400, InvalidKeyDetail);
      }
      var f := field.value;
      var sorted := SortOn(docs, (d: Document) => FieldValue(f, d.customer), false);
      var out := PopIds(sorted);
      StripKeepsOrder(f, sorted);
      MapPermutation((d: Document) => d.customer, sorted, docs);
      r := Ok(200, out);
    }
  }

  /**
   The update endpoint does not check the new e-mail: after Ann and Bob are
   added, renaming Ann's e-mail to Bob's is accepted and leaves two stored
   documents with one e-mail.
   */
  method UpdateDuplicatesEmail() returns (c: CustomerCollection, r: Response<Record>)
    ensures fresh(c) && c.Valid()
    ensures r == Ok(200, Record("Ann", "bob@x.com", 1))
    ensures |c.docs| == 2 && c.docs[0].customer.email == c.docs[1].customer.email
    ensures !UniqueEmails(c.docs)
  {
    c := new CustomerCollection();
    var added := c.AddCustomer(Record("Ann", "ann@x.com", 1));
    added := c.AddCustomer(Record("Bob", "bob@x.com", 2));
    assert c.docs[0].customer.email == "ann@x.com";
    r := c.UpdateCustomer("ann@x.com", Record("Ann", "bob@x.com", 1));
  }
}
