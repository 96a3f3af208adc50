/** `src/app/api/admins/route.ts`: the admin handlers that first check the core database
    URI and answer a thrown error with its own message. */
module AdminsRoute {
  import opened Base
  import opened Calendar
  import opened Tables
  import opened Records
  import opened Stores
  import Admins

  const MissingUri := "Missing Core DB URI"

  /** The 500 message when storage throws: `error instanceof Error ? error.message : ...`. */
  function FaultOf(storage: Storage): (r: Option<string>)
    ensures storage.Available? <==> r.None?
    ensures storage.Throws? && storage.thrown.ErrorObject? ==> r == Some(storage.thrown.message)
    ensures storage.Throws? && storage.thrown.OtherValue? ==> r == Some(InternalError)
  {
    match storage
    case Available => None
    case Throws(t) => Some(CaughtMessage(t))
  }

  /** POST. A missing URI throws before the body is read, so it comes first. */
  method Post(db: CoreDatabase, coreUri: string, storage: Storage, name: string, email: string, phone: string,
              password: string, productKey: string, hashOf: string -> string, newId: Id, now: Date)
    returns (resp: Response)
    requires db.Valid() && KeyAbsent(db.users, UserKey, newId)
    modifies db`users
    ensures db.Valid()
    ensures old(Admins.EmailsUnique(db.users)) ==> Admins.EmailsUnique(db.users)
    ensures coreUri == "" ==> resp == Response(500, MissingUri) && db.users == old(db.users)
    ensures coreUri != "" ==>
      var o := Admins.Create(old(db.users), db.products, FaultOf(storage), name, email, phone, password, productKey,
                             hashOf, newId, now);
      resp == o.resp && db.users == o.users
  {
    if coreUri == "" {
      return Response(500, MissingUri);
    }
    var o := Admins.Create(db.users, db.products, FaultOf(storage), name, email, phone, password, productKey,
                           hashOf, newId, now);
    db.users := o.users;
    resp := o.resp;
  }

  /** PUT. */
  method Put(db: CoreDatabase, coreUri: string, storage: Storage, id: Id, name: string, email: string, phone: string)
    returns (resp: Response)
    requires db.Valid()
    modifies db`users
    ensures db.Valid()
    ensures old(Admins.EmailsUnique(db.users)) ==> Admins.EmailsUnique(db.users)
    ensures coreUri == "" ==> resp == Response(500, MissingUri) && db.users == old(db.users)
    ensures coreUri != "" ==>
      var o := Admins.Update(old(db.users), FaultOf(storage), id, name, email, phone);
      resp == o.resp && db.users == o.users
  {
    if coreUri == "" {
      return Response(500, MissingUri);
    }
    var o := Admins.Update(db.users, FaultOf(storage), id, name, email, phone);
    db.users := o.users;
    resp := o.resp;
  }

  /** DELETE, with the id taken from the query string. */
  method Delete(db: CoreDatabase, coreUri: string, storage: Storage, id: Id) returns (resp: Response)
    requires db.Valid()
    modifies db`users
    ensures db.Valid()
    ensures old(Admins.EmailsUnique(db.users)) ==> Admins.EmailsUnique(db.users)
    ensures coreUri == "" ==> resp == Response(500, MissingUri) && db.users == old(db.users)
    ensures coreUri != "" ==>
      var o := Admins.Delete(old(db.users), FaultOf(storage), id);
      resp == o.resp && db.users == o.users
  {
    if coreUri == "" {
      return Response(500, MissingUri);
    }
    var o := Admins.Delete(db.users, FaultOf(storage), id);
    db.users := o.users;
    resp := o.resp;
  }

  /** A thrown `Error` reaches the client: once the fields are present, its message is the 500 reply. */
  lemma FaultCarriesMessage(users: seq<User>, products: seq<Product>, m: string, name: string, email: string,
                            phone: string, password: string, productKey: string, hashOf: string -> string,
                            newId: Id, now: Date)
    requires KeyAbsent(users, UserKey, newId)
    requires name != "" && email != "" && password != "" && productKey != ""
    ensures Admins.Create(users, products, FaultOf(Throws(ErrorObject(m))), name, email, phone, password, productKey,
                          hashOf, newId, now).resp == Response(500, m)
  {
  }
}
