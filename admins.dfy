/** The admin-account logic shared by the two `/api/admins` handler files: create an admin
    for a product, edit an admin, remove an admin. Each operation is a function from the
    `users` table (and, for creation, the `products` table) to the reply and the new table.
    `fault` is the message of the 500 reply the handler gives when its storage calls throw:
    the two files differ only in that message and in a configuration check of their own. */
module Admins {
  import opened Base
  import opened Calendar
  import opened Tables
  import opened Records

  const MissingFields := "Missing required fields."
  const EmailTaken := "An admin with this email already exists."
  const InvalidProduct := "Invalid product key provided."
  const Created := "Admin created successfully!"
  const MissingUpdateFields := "Admin ID, name, and email are required."
  const EmailInUse := "This email is already in use by another account."
  const AdminNotFound := "Admin not found."
  const Updated := "Admin updated successfully!"
  const MissingId := "Admin ID is required."
  const Removed := "Admin removed successfully!"
  const AdminRole := "admin"

  /** A reply together with the `users` table after the handler ran. */
  datatype Outcome = Outcome(resp: Response, users: seq<User>)

  /** No two users share an email. No index enforces it in these handlers; their checks keep it. */
  predicate EmailsUnique(users: seq<User>)
  {
    UniqueKeys(users, UserEmail)
  }

  /** `findOne({ email, _id: { $ne: id } })` finds something. */
  predicate EmailUsedByOther(users: seq<User>, email: string, id: Id)
  {
    exists j :: 0 <= j < |users| && users[j].email == email && users[j].id != id
  }

  /** The document POST inserts: role `admin` and exactly the one product found. */
  function NewAdmin(id: Id, name: string, email: string, phone: string, hashed: string, productId: Id, now: Date)
    : (u: User)
    ensures u.id == id && u.name == name && u.email == email && u.phone == phone && u.password == hashed
    ensures u.role == AdminRole && u.assignedProducts == Some([productId]) && u.createdAt == Some(now)
  {
    User(id, name, email, phone, hashed, AdminRole, Some([productId]), Some(now))
  }

  /** Appending a user with a fresh id and a fresh email keeps both unique. */
  lemma AppendKeepsUnique(users: seq<User>, u: User)
    requires KeyAbsent(users, UserKey, u.id) && KeyAbsent(users, UserEmail, u.email)
    ensures UniqueKeys(users, UserKey) ==> UniqueKeys(users + [u], UserKey)
    ensures EmailsUnique(users) ==> EmailsUnique(users + [u])
  {
    if UniqueKeys(users, UserKey) {
      UniqueAfterAppend(users, UserKey, u);
    }
    if EmailsUnique(users) {
      UniqueAfterAppend(users, UserEmail, u);
    }
  }

  lemma RemoveKeepsEmails(users: seq<User>, i: nat)
    requires i < |users|
    ensures EmailsUnique(users) ==> EmailsUnique(users[..i] + users[i + 1..])
  {
    if EmailsUnique(users) {
      UniqueAfterRemove(users, UserEmail, i);
    }
  }

  /** POST: 400 on a missing field, then the storage fault, then 409 on a taken email, then
      400 on an unknown product key; otherwise one admin appended (201), its password the
      hash of the one sent. No error path writes anything. */
  function Create(users: seq<User>, products: seq<Product>, fault: Option<string>,
                  name: string, email: string, phone: string, password: string, productKey: string,
                  hashOf: string -> string, newId: Id, now: Date): (o: Outcome)
    requires KeyAbsent(users, UserKey, newId)
    ensures name == "" || email == "" || password == "" || productKey == "" ==>
      o == Outcome(Response(400, MissingFields), users)
    ensures !(name == "" || email == "" || password == "" || productKey == "") && fault.Some? ==>
      o == Outcome(Response(500, fault.value), users)
    ensures (!(name == "" || email == "" || password == "" || productKey == "") && fault.None?
             && !KeyAbsent(users, UserEmail, email)) ==>
      o == Outcome(Response(409, EmailTaken), users)
    ensures (!(name == "" || email == "" || password == "" || productKey == "") && fault.None?
             && KeyAbsent(users, UserEmail, email) && Lookup(products, ProductKeyText, productKey).None?) ==>
      o == Outcome(Response(400, InvalidProduct), users)
    ensures o.resp.status == 201 <==>
      (!(name == "" || email == "" || password == "" || productKey == "") && fault.None?
       && KeyAbsent(users, UserEmail, email) && Lookup(products, ProductKeyText, productKey).Some?)
    ensures o.resp.status == 201 ==>
      (o.resp.message == Created
       && o.users == users + [NewAdmin(newId, name, email, phone, hashOf(password),
                                       Lookup(products, ProductKeyText, productKey).value.id, now)])
    ensures o.resp.status != 201 ==> o.users == users
    ensures fault.None? ==> o.resp.status != 500
    ensures UniqueKeys(users, UserKey) ==> UniqueKeys(o.users, UserKey)
    ensures EmailsUnique(users) ==> EmailsUnique(o.users)
  {
    if name == "" || email == "" || password == "" || productKey == "" then Outcome(Response(400, MissingFields), users)
    else if fault.Some? then Outcome(Response(500, fault.value), users)
    else if IndexOf(users, UserEmail, email).Some? then Outcome(Response(409, EmailTaken), users)
    else match Lookup(products, ProductKeyText, productKey)
      case None => Outcome(Response(400, InvalidProduct), users)
      case Some(product) =>
        var u := NewAdmin(newId, name, email, phone, hashOf(password), product.id, now);
        AppendKeepsUnique(users, u);
        Outcome(Response(201, Created), users + [u])
  }

  /** The `$set: { name, email, phone }` of PUT, on one user. */
  function Edited(u: User, name: string, email: string, phone: string): (r: User)
    ensures r.name == name && r.email == email && r.phone == phone
    ensures r.id == u.id && r.password == u.password && r.role == u.role
    ensures r.assignedProducts == u.assignedProducts && r.createdAt == u.createdAt
  {
    u.(name := name, email := email, phone := phone)
  }

  function EditedUsers(users: seq<User>, id: Id, name: string, email: string, phone: string): seq<User>
  {
    UpdateFirst(users, UserKey, id, (u: User) => Edited(u, name, email, phone))
  }

  /** Editing keeps ids unique, changes only the user with that id, and keeps emails unique
      when no other user holds the new email. */
  lemma EditKeepsUnique(users: seq<User>, id: Id, name: string, email: string, phone: string)
    requires UniqueKeys(users, UserKey)
    ensures UniqueKeys(EditedUsers(users, id, name, email, phone), UserKey)
    ensures forall j :: 0 <= j < |users| ==>
      EditedUsers(users, id, name, email, phone)[j] == if users[j].id == id then Edited(users[j], name, email, phone) else users[j]
    ensures EmailsUnique(users) && !EmailUsedByOther(users, email, id) ==>
      EmailsUnique(EditedUsers(users, id, name, email, phone))
  {
    var f := (u: User) => Edited(u, name, email, phone);
    UpdateKeepsUnique(users, UserKey, id, f);
    UpdateOnly(users, UserKey, id, f);
  }

  /** PUT: 400 on a missing field, then the storage fault, then 409 when a different user
      holds the email, then 404 for an unknown id; otherwise only that user's name, email and
      phone change. */
  function Update(users: seq<User>, fault: Option<string>, id: Id, name: string, email: string, phone: string)
    : (o: Outcome)
    requires UniqueKeys(users, UserKey)
    ensures id == "" || name == "" || email == "" ==> o == Outcome(Response(400, MissingUpdateFields), users)
    ensures !(id == "" || name == "" || email == "") && fault.Some? ==> o == Outcome(Response(500, fault.value), users)
    ensures (!(id == "" || name == "" || email == "") && fault.None? && EmailUsedByOther(users, email, id)) ==>
      o == Outcome(Response(409, EmailInUse), users)
    ensures (!(id == "" || name == "" || email == "") && fault.None? && !EmailUsedByOther(users, email, id)
             && KeyAbsent(users, UserKey, id)) ==>
      o == Outcome(Response(404, AdminNotFound), users)
    ensures (!(id == "" || name == "" || email == "") && fault.None? && !EmailUsedByOther(users, email, id)
             && !KeyAbsent(users, UserKey, id)) ==>
      o == Outcome(Response(200, Updated), EditedUsers(users, id, name, email, phone))
    ensures fault.None? ==> o.resp.status != 500
    ensures UniqueKeys(o.users, UserKey)
    ensures EmailsUnique(users) ==> EmailsUnique(o.users)
  {
    if id == "" || name == "" || email == "" then Outcome(Response(400, MissingUpdateFields), users)
    else if fault.Some? then Outcome(Response(500, fault.value), users)
    else if EmailUsedByOther(users, email, id) then Outcome(Response(409, EmailInUse), users)
    else if IndexOf(users, UserKey, id).None? then Outcome(Response(404, AdminNotFound), users)
    else
      EditKeepsUnique(users, id, name, email, phone);
      Outcome(Response(200, Updated), EditedUsers(users, id, name, email, phone))
  }

  /** An admin may re-send its own email: the uniqueness check skips the user being edited. */
  lemma KeepingOwnEmailAllowed(users: seq<User>, j: nat, name: string, phone: string)
    requires UniqueKeys(users, UserKey) && EmailsUnique(users) && j < |users|
    requires users[j].id != "" && name != "" && users[j].email != ""
    ensures Update(users, None, users[j].id, name, users[j].email, phone).resp == Response(200, Updated)
  {
    assert !EmailUsedByOther(users, users[j].email, users[j].id);
    LookupFindsOnly(users, UserKey, j);
  }

  /** DELETE: 400 without an id, then the storage fault, then 404 when nothing is deleted;
      otherwise exactly the user with that id is removed, whatever its role. */
  function Delete(users: seq<User>, fault: Option<string>, id: Id): (o: Outcome)
    requires UniqueKeys(users, UserKey)
    ensures id == "" ==> o == Outcome(Response(400, MissingId), users)
    ensures id != "" && fault.Some? ==> o == Outcome(Response(500, fault.value), users)
    ensures id != "" && fault.None? && KeyAbsent(users, UserKey, id) ==> o == Outcome(Response(404, AdminNotFound), users)
    ensures id != "" && fault.None? && !KeyAbsent(users, UserKey, id) ==>
      (o.resp == Response(200, Removed) && forall u :: u in o.users <==> u in users && u.id != id)
    ensures fault.None? ==> o.resp.status != 500
    ensures UniqueKeys(o.users, UserKey)
    ensures EmailsUnique(users) ==> EmailsUnique(o.users)
  {
    if id == "" then Outcome(Response(400, MissingId), users)
    else if fault.Some? then Outcome(Response(500, fault.value), users)
    else match IndexOf(users, UserKey, id)
      case None => Outcome(Response(404, AdminNotFound), users)
      case Some(i) =>
        RemoveOnly(users, UserKey, id);
        RemoveKeepsEmails(users, i);
        Outcome(Response(200, Removed), RemoveFirst(users, UserKey, id))
  }
}
