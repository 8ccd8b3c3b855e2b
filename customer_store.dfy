/** The customers table and its repository (src/customers/repositories/customers.repository.ts). */
module CustomerStore {
  import opened Common
  import opened Text

  /** A row of the customers table. */
  datatype Customer = Customer(
    id: Id,
    userId: Id,
    name: string,
    email: Option<string>,
    phone: Option<string>,
    address: Option<string>,
    notes: Option<string>)

  /** The data a create request carries. */
  datatype NewCustomer = NewCustomer(
    name: string,
    email: Option<string>,
    phone: Option<string>,
    address: Option<string>,
    notes: Option<string>)

  /** The data an update request carries: only the supplied fields are set;
      the optional fields may be supplied as null. */
  datatype CustomerPatch = CustomerPatch(
    name: Patch<string>,
    email: Patch<Option<string>>,
    phone: Patch<Option<string>>,
    address: Patch<Option<string>>,
    notes: Patch<Option<string>>)

  /** The row `create` saves: the name trimmed, each absent or empty optional
      field stored as null. */
  function NewCustomerRow(id: Id, userId: Id, data: NewCustomer): (c: Customer)
    ensures c.id == id && c.userId == userId && c.name == Trim(data.name)
    ensures c.email.None? <==> Falsy(data.email)
    ensures c.phone.None? <==> Falsy(data.phone)
    ensures c.address.None? <==> Falsy(data.address)
    ensures c.notes.None? <==> Falsy(data.notes)
  {
    Customer(id, userId, Trim(data.name), OrNull(data.email), OrNull(data.phone),
             OrNull(data.address), OrNull(data.notes))
  }

  /** The row `update` saves: a supplied name trimmed, the other supplied
      fields assigned as given ("" and null included). */
  function PatchedCustomer(c: Customer, patch: CustomerPatch): Customer {
    Customer(c.id, c.userId,
             TrimmedApply(patch.name, c.name),
             patch.email.Apply(c.email),
             patch.phone.Apply(c.phone),
             patch.address.Apply(c.address),
             patch.notes.Apply(c.notes))
  }

  /** Sending the same update twice stores the same row as sending it once. */
  lemma PatchedCustomerIdempotent(c: Customer, patch: CustomerPatch)
    ensures PatchedCustomer(PatchedCustomer(c, patch), patch) == PatchedCustomer(c, patch)
  {
    TrimmedApplyIdempotent(patch.name, c.name);
  }

  /** The owner-scoped lookup of a customer. */
  predicate OwnsCustomer(rows: map<Id, Customer>, id: Id, userId: Id) {
    id in rows && rows[id].userId == userId
  }

  /** A nullable column `LIKE '%q%'`: null matches nothing. */
  predicate FieldContains(field: Option<string>, query: string) {
    field.Some? && Contains(field.value, query)
  }

  /** `name LIKE '%q%' OR email LIKE '%q%' OR phone LIKE '%q%'`. */
  predicate Matches(c: Customer, query: string) {
    Contains(c.name, query) || FieldContains(c.email, query) || FieldContains(c.phone, query)
  }

  class CustomersRepository {
    var rows: map<Id, Customer>

    /** Each row is stored under its own id. */
    ghost predicate Valid()
      reads this
    {
      forall id :: id in rows ==> rows[id].id == id
    }

    constructor ()
      ensures Valid() && rows == map[]
    {
      rows := map[];
    }

    /** findById: the row only when both id and owner match. */
    method FindById(id: Id, userId: Id) returns (r: Option<Customer>)
      ensures r.Some? <==> OwnsCustomer(rows, id, userId)
      ensures r.Some? ==> r.value == rows[id]
    {
      if id in rows && rows[id].userId == userId {
        r := Some(rows[id]);
      } else {
        r := None;
      }
    }

    /** create: inserts the row under the generated id. */
    method Create(userId: Id, data: NewCustomer, id: Id) returns (c: Customer)
      requires Valid() && id !in rows
      modifies this
      ensures Valid()
      ensures c == NewCustomerRow(id, userId, data) && rows == old(rows)[id := c]
    {
      c := Customer(id, userId, Trim(data.name), OrNull(data.email), OrNull(data.phone),
                    OrNull(data.address), OrNull(data.notes));
      rows := rows[id := c];
    }

    /** update: fails when the user owns no such row; otherwise assigns the
        supplied fields and keeps the others. */
    method Update(id: Id, userId: Id, patch: CustomerPatch) returns (r: Result<Customer>)
      requires Valid()
      modifies this
      ensures Valid()
      ensures !OwnsCustomer(old(rows), id, userId) ==> r == Err(CustomerMissing) && rows == old(rows)
      ensures OwnsCustomer(old(rows), id, userId) ==>
                r == Ok(PatchedCustomer(old(rows)[id], patch)) && rows == old(rows)[id := r.value]
    {
      var found := FindById(id, userId);
      if found.None? {
        return Err(CustomerMissing);
      }
      var customer := found.value;
      var name, email, phone := customer.name, customer.email, customer.phone;
      var address, notes := customer.address, customer.notes;
      if patch.name.Set? { name := Trim(patch.name.value); }
      if patch.email.Set? { email := patch.email.value; }
      if patch.phone.Set? { phone := patch.phone.value; }
      if patch.address.Set? { address := patch.address.value; }
      if patch.notes.Set? { notes := patch.notes.value; }
      customer := Customer(customer.id, customer.userId, name, email, phone, address, notes);
      rows := rows[id := customer];
      r := Ok(customer);
    }

    /** delete: removes the row, or fails when the user owns no such row. */
    method Delete(id: Id, userId: Id) returns (r: Outcome)
      requires Valid()
      modifies this
      ensures Valid()
      ensures r.Pass? <==> OwnsCustomer(old(rows), id, userId)
      ensures r.Fail? ==> r.error == CustomerMissing && rows == old(rows)
      ensures r.Pass? ==> rows == old(rows) - {id}
    {
      if id in rows && rows[id].userId == userId {
        rows := rows - {id};
        r := Pass;
      } else {
        r := Fail(CustomerMissing);
      }
    }

    /** search: the user's rows whose name, email or phone contains the query. */
    function Search(userId: Id, query: string): (r: map<Id, Customer>)
      reads this
      ensures forall id :: id in r <==> OwnsCustomer(rows, id, userId) && Matches(rows[id], query)
      ensures forall id :: id in r ==> id in rows && r[id] == rows[id]
    {
      map id | id in rows && rows[id].userId == userId && Matches(rows[id], query) :: rows[id]
    }
  }

  /** A customer is found by searching for its own name, email or phone. */
  lemma SearchFindsOwnFields(repository: CustomersRepository, userId: Id, id: Id)
    requires OwnsCustomer(repository.rows, id, userId)
    ensures id in repository.Search(userId, repository.rows[id].name)
    ensures repository.rows[id].email.Some? ==> id in repository.Search(userId, repository.rows[id].email.value)
    ensures repository.rows[id].phone.Some? ==> id in repository.Search(userId, repository.rows[id].phone.value)
  {
    var c := repository.rows[id];
    ContainsSelf(c.name);
    if c.email.Some? {
      ContainsSelf(c.email.value);
    }
    if c.phone.Some? {
      ContainsSelf(c.phone.value);
    }
  }
}
