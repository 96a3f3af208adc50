/** `scripts/seed-superadmin.js`: add one superadmin account to the core database's
    `users`, unless a user with its email already exists. `hashOf` is the bcrypt hash. */
module SeedSuperadmin {
  import opened Base
  import opened Calendar
  import opened Tables
  import opened Records
  import opened Stores
  import LoginRoute

  const Name := "Super Admin"
  const Email := "superadmin@smartnexai.com"
  const Password := "1234"
  const Role := "superadmin"

  /** How a run ends: exit on a missing URI, abort on an existing email, or one user inserted. */
  datatype SeedOutcome = MissingUri | AlreadyExists | Inserted

  /** The inserted document: the fixed details, the hashed password, the superadmin role,
      an empty product list and the creation time. It has no phone. */
  function SuperadminUser(id: Id, hashed: string, now: Date): (u: User)
    ensures u.id == id && u.name == Name && u.email == Email && u.password == hashed
    ensures u.role == Role && u.assignedProducts == Some([]) && u.createdAt == Some(now) && u.phone == ""
  {
    User(id, Name, Email, "", hashed, Role, Some([]), Some(now))
  }

  /** The script: exit when the URI is missing, abort when `findOne({ email })` finds a user,
      otherwise insert the superadmin after the stored users. */
  method Seed(db: CoreDatabase, uri: string, hashOf: string -> string, newId: Id, now: Date) returns (outcome: SeedOutcome)
    requires db.Valid() && KeyAbsent(db.users, UserKey, newId)
    modifies db`users
    ensures db.Valid()
    ensures uri == "" ==> outcome == MissingUri && db.users == old(db.users)
    ensures uri != "" && !KeyAbsent(old(db.users), UserEmail, Email) ==>
      outcome == AlreadyExists && db.users == old(db.users)
    ensures uri != "" && KeyAbsent(old(db.users), UserEmail, Email) ==>
      outcome == Inserted && db.users == old(db.users) + [SuperadminUser(newId, hashOf(Password), now)]
    ensures !KeyAbsent(db.users, UserEmail, Email) || uri == ""
  {
    if uri == "" {
      return MissingUri;
    }
    if Lookup(db.users, UserEmail, Email).Some? {
      return AlreadyExists;
    }
    var u := SuperadminUser(newId, hashOf(Password), now);
    UniqueAfterAppend(db.users, UserKey, u);
    db.users := db.users + [u];
    assert db.users[|db.users| - 1] == u;
    return Inserted;
  }

  /** Seeding onto an absent email keeps emails unique. */
  lemma SeedKeepsEmailsUnique(users: seq<User>, id: Id, hashed: string, now: Date)
    requires UniqueKeys(users, UserEmail) && KeyAbsent(users, UserEmail, Email)
    ensures UniqueKeys(users + [SuperadminUser(id, hashed, now)], UserEmail)
  {
    UniqueAfterAppend(users, UserEmail, SuperadminUser(id, hashed, now));
  }

  /** The lookup by email after seeding finds the seeded account, and a second run aborts. */
  lemma SeededFoundByEmail(users: seq<User>, id: Id, hashed: string, now: Date)
    requires KeyAbsent(users, UserEmail, Email)
    ensures Lookup(users + [SuperadminUser(id, hashed, now)], UserEmail, Email) == Some(SuperadminUser(id, hashed, now))
    ensures !KeyAbsent(users + [SuperadminUser(id, hashed, now)], UserEmail, Email)
  {
    var s := users + [SuperadminUser(id, hashed, now)];
    assert UserEmail(s[|users|]) == Email;
    assert forall j :: 0 <= j < |users| ==> s[j] == users[j];
  }

  /** After seeding, logging in with the seeded email and password succeeds whenever the
      hash verifies the password, and the session is a superadmin's with no product key. */
  lemma SeededCanLogIn(users: seq<User>, products: seq<Product>, id: Id, hashOf: string -> string, now: Date,
                       verify: (string, string) -> bool)
    requires KeyAbsent(users, UserEmail, Email)
    requires verify(Password, hashOf(Password))
    ensures LoginRoute.Post(users + [SuperadminUser(id, hashOf(Password), now)], products, Email, Some(Password), verify).Ok?
    ensures LoginRoute.Post(users + [SuperadminUser(id, hashOf(Password), now)], products, Email, Some(Password), verify).body
         == LoginRoute.Session(id, Name, Email, Role, None)
  {
    SeededFoundByEmail(users, id, hashOf(Password), now);
  }
}
