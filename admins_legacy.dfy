/** `src/app/api/admins/route.tsx`: the older admin handlers. They have no URI check, take
    the DELETE id from the JSON body, and answer every thrown value with the generic message. */
module AdminsLegacyRoute {
  import opened Base
  import opened Calendar
  import opened Tables
  import opened Records
  import opened Stores
  import Admins

  /** The 500 message when storage throws: always the generic one. */
  function FaultOf(storage: Storage): (r: Option<string>)
    ensures storage.Available? <==> r.None?
    ensures storage.Throws? ==> r == Some(InternalError)
  {
    if storage.Available? then None else Some(InternalError)
  }

  method Post(db: CoreDatabase, storage: Storage, name: string, email: string, phone: string,
              password: string, productKey: string, hashOf: string -> string, newId: Id, now: Date)
    returns (resp: Response)
    requires db.Valid() && KeyAbsent(db.users, UserKey, newId)
    modifies db`users
    ensures db.Valid()
    ensures old(Admins.EmailsUnique(db.users)) ==> Admins.EmailsUnique(db.users)
    ensures var o := Admins.Create(old(db.users), db.products, FaultOf(storage), name, email, phone, password,
                                   productKey, hashOf, newId, now);
      resp == o.resp && db.users == o.users
  {
    var o := Admins.Create(db.users, db.products, FaultOf(storage), name, email, phone, password, productKey,
                           hashOf, newId, now);
    db.users := o.users;
    resp := o.resp;
  }

  method Put(db: CoreDatabase, storage: Storage, id: Id, name: string, email: string, phone: string)
    returns (resp: Response)
    requires db.Valid()
    modifies db`users
    ensures db.Valid()
    ensures old(Admins.EmailsUnique(db.users)) ==> Admins.EmailsUnique(db.users)
    ensures var o := Admins.Update(old(db.users), FaultOf(storage), id, name, email, phone);
      resp == o.resp && db.users == o.users
  {
    var o := Admins.Update(db.users, FaultOf(storage), id, name, email, phone);
    db.users := o.users;
    resp := o.resp;
  }

  /** DELETE, with the id taken from the JSON body. */
  method Delete(db: CoreDatabase, storage: Storage, id: Id) returns (resp: Response)
    requires db.Valid()
    modifies db`users
    ensures db.Valid()
    ensures old(Admins.EmailsUnique(db.users)) ==> Admins.EmailsUnique(db.users)
    ensures var o := Admins.Delete(old(db.users), FaultOf(storage), id);
      resp == o.resp && db.users == o.users
  {
    var o := Admins.Delete(db.users, FaultOf(storage), id);
    db.users := o.users;
    resp := o.resp;
  }

  /** Every 500 of these handlers carries the generic message, never the error's detail. */
  lemma FaultsAreGeneric(users: seq<User>, products: seq<Product>, storage: Storage,
                         name: string, email: string, phone: string, password: string, productKey: string,
                         hashOf: string -> string, newId: Id, now: Date, id: Id)
    requires UniqueKeys(users, UserKey) && KeyAbsent(users, UserKey, newId)
    ensures var r := Admins.Create(users, products, FaultOf(storage), name, email, phone, password, productKey,
                                   hashOf, newId, now).resp;
      r.status == 500 ==> r.message == InternalError
    ensures var r := Admins.Update(users, FaultOf(storage), id, name, email, phone).resp;
      r.status == 500 ==> r.message == InternalError
    ensures var r := Admins.Delete(users, FaultOf(storage), id).resp;
      r.status == 500 ==> r.message == InternalError
  {
  }
}
