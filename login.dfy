/** `POST /api/auth/login`: check an admin's or superadmin's credentials and build the
    session payload. `verify(plain, hash)` is the bcrypt comparison. */
module LoginRoute {
  import opened Base
  import opened Tables
  import opened Records

  const InvalidCredentials := "Invalid credentials"
  const LoggedIn := "Login successful!"
  const AdminRole := "admin"

  /** The session object: `_id`, name, email, role and, for some admins, a product key.
      There is no password field. */
  datatype Session = Session(id: Id, name: string, email: string, role: string, productKey: Option<string>)

  /** The first assigned product that the session resolves, for an admin with a non-empty list. */
  function FirstAssigned(u: User): (r: Option<Id>)
    ensures r.Some? <==> u.role == AdminRole && u.assignedProducts.Some? && |u.assignedProducts.value| > 0
    ensures r.Some? ==> r.value == u.assignedProducts.value[0]
  {
    if u.role == AdminRole && u.assignedProducts.Some? && |u.assignedProducts.value| > 0
    then Some(u.assignedProducts.value[0])
    else None
  }

  /** The session for a user whose password matched. */
  function SessionFor(u: User, products: seq<Product>): (s: Session)
    ensures s.id == u.id && s.name == u.name && s.email == u.email && s.role == u.role
    ensures s.productKey.Some? <==> FirstAssigned(u).Some? && Lookup(products, ProductKey, FirstAssigned(u).value).Some?
    ensures s.productKey.Some? ==> s.productKey.value == Lookup(products, ProductKey, FirstAssigned(u).value).value.productKey
  {
    var base := Session(u.id, u.name, u.email, u.role, None);
    match FirstAssigned(u)
    case None => base
    case Some(pid) =>
      match Lookup(products, ProductKey, pid)
      case None => base
      case Some(product) => base.(productKey := Some(product.productKey))
  }

  /** 401 with one and the same message for an unknown email and for a wrong password;
      otherwise the session of the first user with that email. `password` is None when
      the body has no password, a null one or one that is not a string: bcrypt's `compare`
      then rejects, and the catch answers 500. */
  function Post(users: seq<User>, products: seq<Product>, email: string, password: Option<string>,
                verify: (string, string) -> bool): (r: Reply<Session>)
    ensures r.Err? ==> r == Err(401, InvalidCredentials) || r == Err(500, InternalError)
    ensures KeyAbsent(users, UserEmail, email) ==> r == Err(401, InvalidCredentials)
    ensures r == Err(500, InternalError) <==> !KeyAbsent(users, UserEmail, email) && password.None?
    ensures r == Err(401, InvalidCredentials) <==>
      (KeyAbsent(users, UserEmail, email)
       || (password.Some? && !verify(password.value, Lookup(users, UserEmail, email).value.password)))
    ensures r.Ok? <==> !KeyAbsent(users, UserEmail, email) && password.Some?
                       && verify(password.value, Lookup(users, UserEmail, email).value.password)
    ensures r.Ok? ==> r.body == SessionFor(Lookup(users, UserEmail, email).value, products)
    ensures r.Ok? ==> exists u :: (u in users && u.email == email && verify(password.value, u.password)
                                   && r.body == SessionFor(u, products))
  {
    match Lookup(users, UserEmail, email)
    case None => Err(401, InvalidCredentials)
    case Some(u) =>
      match password
      case None => Err(500, InternalError)
      case Some(plain) => if !verify(plain, u.password) then Err(401, InvalidCredentials) else Ok(SessionFor(u, products))
  }

  /** A known email sent without a password is not refused as bad credentials: the compare
      throws, and the route answers 500. */
  lemma MissingPasswordIsServerError(users: seq<User>, products: seq<Product>, email: string,
                                     verify: (string, string) -> bool)
    requires !KeyAbsent(users, UserEmail, email)
    ensures Post(users, products, email, None, verify) == Err(500, InternalError)
  {
  }

  /** A superadmin, or any user that is not an admin, never gets a product key. */
  lemma OnlyAdminsGetProductKey(users: seq<User>, products: seq<Product>, email: string, password: Option<string>,
                                verify: (string, string) -> bool)
    requires Post(users, products, email, password, verify).Ok?
    requires Post(users, products, email, password, verify).body.role != AdminRole
    ensures Post(users, products, email, password, verify).body.productKey.None?
  {
  }

  /** Only the first assigned product is consulted: when it is missing the admin gets no
      key, even if a later one exists. */
  lemma MissingFirstProductGivesNoKey(u: User, products: seq<Product>)
    requires FirstAssigned(u).Some? && KeyAbsent(products, ProductKey, FirstAssigned(u).value)
    ensures SessionFor(u, products).productKey.None?
  {
  }
}
