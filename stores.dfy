/** The two MongoDB databases as in-memory tables. Each collection is a sequence
    of documents in natural (insertion) order, which is the order `find` and
    `findOne` see them in. */
module Stores {
  import opened Base
  import opened Calendar
  import opened Tables
  import opened Records

  function MenuSlot(m: Menu): (Id, Date) { (m.pgId, m.date) }

  /** The PG-management database. */
  class PgDatabase {
    var pgs: seq<Pg>
    var floors: seq<Floor>
    var rooms: seq<Room>
    var tenants: seq<Tenant>
    var assignments: seq<Assignment>
    var payments: seq<Payment>
    var tickets: seq<Ticket>
    var menus: seq<Menu>

    /** The `_id` index of every collection, and the (pgId, date) slot of the menus,
        which the menu upsert keeps unique. */
    ghost predicate Valid()
      reads this
    {
      UniqueKeys(pgs, PgKey) && UniqueKeys(floors, FloorKey) && UniqueKeys(rooms, RoomKey)
      && UniqueKeys(tenants, TenantKey) && UniqueKeys(payments, PaymentKey)
      && UniqueKeys(tickets, TicketKey) && UniqueKeys(menus, MenuSlot)
    }

    constructor ()
      ensures Valid()
      ensures pgs == [] && floors == [] && rooms == [] && tenants == []
      ensures assignments == [] && payments == [] && tickets == [] && menus == []
    {
      pgs, floors, rooms, tenants := [], [], [], [];
      assignments, payments, tickets, menus := [], [], [], [];
    }
  }

  /** The core database shared by every product. */
  class CoreDatabase {
    var users: seq<User>
    var products: seq<Product>

    ghost predicate Valid()
      reads this
    {
      UniqueKeys(users, UserKey) && UniqueKeys(products, ProductKey)
    }

    constructor ()
      ensures Valid() && users == [] && products == []
    {
      users, products := [], [];
    }
  }
}
