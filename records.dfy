/** The documents the handlers store, one datatype per collection, and the key
    accessors the queries match on. A field that a document may lack is an `Option`. */
module Records {
  import opened Base
  import opened Calendar

  /** `pgs` */
  datatype Pg = Pg(id: Id, name: string, address: string, ownerId: Id, createdAt: Date)

  /** `pg_floors`: `floorNumber` holds `Number(...)` of what the client sent. */
  datatype Floor = Floor(id: Id, pgId: Id, floorNumber: JsNumber, createdAt: Date)

  /** `pg_rooms`: `rent` is absent until an owner sets it. */
  datatype Room = Room(id: Id, pgId: Id, floorId: Id, roomNumber: string, capacity: JsNumber,
                       rent: Option<int>, createdAt: Date)

  /** `tenants`: `roomId` is absent (or null) while the tenant is unassigned; `password`
      is absent until one is stored. */
  datatype Tenant = Tenant(id: Id, name: string, mobile: string, address: string, pgId: Id,
                           roomId: Option<Id>, password: Option<string>, createdAt: Date)

  /** `pg_assignments`: the tenancy ledger. `rent` holds `Number(...)` of what was sent. */
  datatype Assignment = Assignment(tenantId: Id, roomId: Id, pgId: Id, rent: JsNumber,
                                   startDate: Date, isActive: bool, endDate: Option<Date>)

  /** `pg_payments`. An empty `currency` stands for a field the client did not send. */
  datatype Payment = Payment(id: Id, tenantId: Id, pgId: Id, roomId: Id, amount: int, currency: string,
                             orderId: string, gatewayPaymentId: string, paymentDate: Date)

  /** `pg_tickets` */
  datatype Ticket = Ticket(id: Id, tenantId: Id, pgId: Id, roomId: Id, description: string,
                           status: string, createdAt: Date)

  /** `pg_menus`: one document per PG and calendar day. `date` is midnight of that day. */
  datatype Menu = Menu(pgId: Id, date: Date, breakfast: string, lunch: string, dinner: string,
                       lastUpdatedAt: Date)

  /** `users` in the core database (admins and the superadmin). `password` is a bcrypt hash. */
  datatype User = User(id: Id, name: string, email: string, phone: string, password: string,
                       role: string, assignedProducts: Option<seq<Id>>, createdAt: Option<Date>)

  /** `products` in the core database. */
  datatype Product = Product(id: Id, productName: string, productKey: string, description: string,
                             accessUrl: string, isActive: bool, createdAt: Option<Date>)

  // Key accessors, passed to the table queries.
  function PgKey(p: Pg): Id { p.id }
  function FloorKey(f: Floor): Id { f.id }
  function RoomKey(r: Room): Id { r.id }
  function TenantKey(t: Tenant): Id { t.id }
  function TenantMobile(t: Tenant): string { t.mobile }
  function PaymentKey(p: Payment): Id { p.id }
  function TicketKey(t: Ticket): Id { t.id }
  function UserKey(u: User): Id { u.id }
  function UserEmail(u: User): string { u.email }
  function ProductKey(p: Product): Id { p.id }
  function ProductKeyText(p: Product): string { p.productKey }
}
