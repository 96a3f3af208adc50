/** `GET /api/admins/pg-management`: the users assigned the PG-management product. */
module PgManagementRoute {
  import opened Base
  import opened Calendar
  import opened Tables
  import opened Records

  const ProductKey := "pg-management"

  /** `Product with key '${PRODUCT_KEY}' not found.` */
  const ProductMissing := "Product with key '" + ProductKey + "' not found."

  /** A user as returned with `projection: { password: 0 }`: every field but the password. */
  datatype PublicUser = PublicUser(id: Id, name: string, email: string, phone: string, role: string,
                                   assignedProducts: Option<seq<Id>>, createdAt: Option<Date>)

  function Public(u: User): (p: PublicUser)
    ensures p.id == u.id && p.name == u.name && p.email == u.email && p.phone == u.phone && p.role == u.role
    ensures p.assignedProducts == u.assignedProducts && p.createdAt == u.createdAt
  {
    PublicUser(u.id, u.name, u.email, u.phone, u.role, u.assignedProducts, u.createdAt)
  }

  /** `find({ assignedProducts: productId })` on an array field: the array contains the id. */
  predicate HoldsProduct(u: User, productId: Id)
  {
    u.assignedProducts.Some? && productId in u.assignedProducts.value
  }

  function HoldersOf(users: seq<User>, productId: Id): (r: seq<PublicUser>)
    ensures forall p :: p in r <==> exists u :: u in users && HoldsProduct(u, productId) && p == Public(u)
  {
    FilterMap(users, (u: User) => if HoldsProduct(u, productId) then Some(Public(u)) else None)
  }

  /** A thrown storage error gives 500 with its message; no `pg-management` product gives
      404; otherwise exactly the holders of that product, without passwords. */
  function Get(users: seq<User>, products: seq<Product>, storage: Storage): (r: Reply<seq<PublicUser>>)
    ensures storage.Throws? <==> r.Err? && r.status == 500
    ensures storage.Throws? ==> r.message == CaughtMessage(storage.thrown)
    ensures r == Err(404, ProductMissing) <==> storage.Available? && KeyAbsent(products, ProductKeyText, ProductKey)
    ensures r.Ok? ==> exists product :: (product in products && product.productKey == ProductKey
      && forall p :: p in r.body <==> exists u :: u in users && HoldsProduct(u, product.id) && p == Public(u))
  {
    match storage
    case Throws(t) => Err(500, CaughtMessage(t))
    case Available =>
      match Lookup(products, ProductKeyText, ProductKey)
      case None => Err(404, ProductMissing)
      case Some(product) => Ok(HoldersOf(users, product.id))
  }
}
