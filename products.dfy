/** `GET /api/products?userId&role`: the products a signed-in user may open. */
module ProductsRoute {
  import opened Base
  import opened Tables
  import opened Records

  const MissingUri := "Missing MONGODB_URI_CORE environment variable."
  const MissingFields := "User ID and role are required."
  const Superadmin := "superadmin"
  const Admin := "admin"

  /** `find({ isActive: true })` */
  function ActiveProducts(products: seq<Product>): (r: seq<Product>)
    ensures forall p :: p in r <==> p in products && p.isActive
  {
    Filter(products, (p: Product) => p.isActive)
  }

  /** `find({ _id: { $in: ids }, isActive: true })` */
  function ActiveAmong(products: seq<Product>, ids: seq<Id>): (r: seq<Product>)
    ensures forall p :: p in r <==> p in products && p.isActive && p.id in ids
  {
    Filter(products, (p: Product) => p.isActive && p.id in ids)
  }

  /** The admin branch: the user's assigned products when the user exists and has a
      non-empty list, else nothing. */
  function AssignedTo(users: seq<User>, products: seq<Product>, userId: Id): (r: seq<Product>)
    ensures forall p :: p in r ==> p in products && p.isActive
  {
    match Lookup(users, UserKey, userId)
    case None => []
    case Some(u) =>
      if u.assignedProducts.Some? && |u.assignedProducts.value| > 0 then ActiveAmong(products, u.assignedProducts.value)
      else []
  }

  /** 500 when the URI is missing (thrown inside the `try`), 400 on a missing parameter,
      500 with the error's message when storage throws; otherwise the list the role selects. */
  function Get(users: seq<User>, products: seq<Product>, coreUri: string, storage: Storage, userId: Id, role: string)
    : (r: Reply<seq<Product>>)
    ensures coreUri == "" ==> r == Err(500, MissingUri)
    ensures coreUri != "" && (userId == "" || role == "") ==> r == Err(400, MissingFields)
    ensures coreUri != "" && userId != "" && role != "" && storage.Throws? ==> r == Err(500, CaughtMessage(storage.thrown))
    ensures r.Ok? <==> coreUri != "" && userId != "" && role != "" && storage.Available?
    ensures r.Ok? ==> forall p :: p in r.body ==> p in products && p.isActive
    ensures r.Ok? && role == Superadmin ==> forall p :: p in r.body <==> p in products && p.isActive
    ensures r.Ok? && role == Admin ==> r.body == AssignedTo(users, products, userId)
    ensures r.Ok? && role != Superadmin && role != Admin ==> r.body == []
  {
    if coreUri == "" then Err(500, MissingUri)
    else if userId == "" || role == "" then Err(400, MissingFields)
    else if storage.Throws? then Err(500, CaughtMessage(storage.thrown))
    else if role == Superadmin then Ok(ActiveProducts(products))
    else if role == Admin then Ok(AssignedTo(users, products, userId))
    else Ok([])
  }

  /** An admin with the given assignment sees exactly its active assigned products; an
      unknown user or an empty or absent assignment sees nothing. */
  lemma AdminSeesAssigned(users: seq<User>, products: seq<Product>, j: nat)
    requires UniqueKeys(users, UserKey) && j < |users|
    ensures var u := users[j];
      (u.assignedProducts.Some? && |u.assignedProducts.value| > 0 ==>
        forall p :: p in AssignedTo(users, products, u.id) <==> p in products && p.isActive && p.id in u.assignedProducts.value)
      && (u.assignedProducts.None? || u.assignedProducts == Some([]) ==> AssignedTo(users, products, u.id) == [])
  {
    LookupFindsOnly(users, UserKey, j);
  }
}
