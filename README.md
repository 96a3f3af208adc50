# PG management API: a Dafny model

This project models the server side of the PG ("paying guest" hostel) management product
of the SmartNexAI portal. It covers these API route handlers:

- tenants, the tenancy ledger and room assignment;
- the PG → floor → room structure and room rents;
- payments: signature verification, the monthly collection roster, per-tenant dues,
  exports and receipts;
- complaint tickets and daily menus;
- the admin users of the core database, the role-scoped product list, and the admin and
  tenant logins.

It also models the two seed scripts, which add the product catalogue and the superadmin
account.

The MongoDB collections are tables (`seq`s of records):
- the PG collections (`tenants`, `pgs`, `pg_floors`, `pg_rooms`, `pg_assignments`,
  `pg_payments`, `pg_tickets`, `pg_menus`) are the class `Stores.PgDatabase`;
- the core collections (`users`, `products`) are `Stores.CoreDatabase`.

The handlers reach these collections by two connection paths. Some use the shared client
on `MONGODB_URI` with the database `smartnexai_db`: the tenants, PGs, logins, `admins/route.tsx`,
pg-management and `products/route.tsx` routes. All the others use `connectToDatabase` with
`MONGODB_URI_PG` or `MONGODB_URI_CORE` and that URI's default database. The model has one
store per group of collections, so it treats both paths as reaching the same collections.

Each class keeps the invariant `Valid()`: no two documents of one collection share an
`_id`.

Handlers that write are methods. Each one:
- `modifies` only the collections it writes;
- states its reply and the whole new state for every branch;
- preserves `Valid()`, plus the route's own uniqueness invariant where it has one (tenant
  mobiles, admin emails, floor numbers per PG, room numbers per floor, menu slots per PG
  and day).

Read-only handlers are functions returning `Reply<T>` (a status and message, or a body)
or `Response`. Their contracts state membership in both directions, order and error
cases.

Conventions of the model:
- Request fields are strings. The empty string stands for a field that is absent, null or
  empty. JavaScript treats all three as falsy, and the routes that test a field reject them
  alike. The login password is an `Option`, because that route does not test it and bcrypt
  rejects a value that is not a string.
- Fields whose JSON type changes the outcome are `JsonValue`s: floor number, room number,
  capacity, rents and the dummy payment's amount. `Number(v)` on them is `Base.ToNumber`.
- Dates are `Calendar.Date` tuples: year, month 1-12, day, and milliseconds since midnight.
- The clock (`new Date()`), fresh ObjectIds, bcrypt `hash`/`compare` and HMAC-SHA256 are
  parameters. The hash and compare functions and the HMAC are uninterpreted.

The month formula of the billing pipelines is modelled as written.
- It subtracts MongoDB's 1-based `$month` from JavaScript's 0-based `getMonth()`.
- So a tenant who joined k ≥ 1 months before the selected month is billed for k months,
  not k + 1.
- A tenant who joined on 15 January, with rent 5000 and 3000 paid, is billed 1 month in
  February and owes 2000: see `PaymentStatusRoute.FebruaryAsComputed`.
- A tenant without a room has rent 0, and the due amount is minus everything they have
  paid: see `TenantDetailsRoute.NoRoomMeansNoRent`.

Each uniqueness check of the floors and rooms routes queries with the value exactly as
sent, but the route stores a converted value. So a floor number sent as text, or a room
number sent as a number, passes the check and can create a duplicate. The model shows
this: see `FloorsRoute.TextFloorNumberIsNotMatched` and
`RoomsRoute.NumericRoomNumberIsNotMatched`.

## Model

| member | source | states |
|---|---|---|
| Base.ToNumber | src/app/api/assignments/route.ts:31 | `Number(v)`: a number stays itself, undefined is NaN, null is 0, digit text is a non-negative number, `-` followed by digits is the negated value, and any other non-empty text is NaN |
| Base.NegativeTextIsIdentity | src/app/api/pg-structure/floors/route.ts:28 | `Number` of the text "-" followed by the digits of n is −n, as for a basement floor |
| Base.NatTextRoundTrip | src/app/api/pg-structure/rooms/route.ts:29 | reading back the decimal text of a natural number gives the number |
| Base.NumberOfTextIsIdentity | src/app/api/pg-structure/floors/route.ts:28 | `Number` of the decimal text of n is n |
| Base.Truthy | src/app/api/payments/dummy-verify/route.ts:13 | JavaScript falsiness: a falsy value has `Number` 0 or NaN, and only a text can be truthy with `Number` 0 |
| Base.JsonText | src/app/api/pg-structure/rooms/route.ts:29 | `String(v)`: a text is itself, only the empty text gives the empty string, and `Number` of a non-negative number's text is the number |
| Calendar.FirstOfMonthZero | src/app/api/payments/status/route.ts:21-22 | `new Date(y, m0, 1)` is the first of month m0 + 1, and m0 = 12 rolls over to January of y + 1 |
| Calendar.StartBeforeNext | src/app/api/payments/status/route.ts:21-22 | the start of a month comes before the start of the next month, one month index later |
| Calendar.WindowIsCalendarMonth | src/app/api/payments/status/route.ts:33 | a date is in [startOfMonth, startOfNextMonth) iff it has the selected year and month |
| Calendar.BeforeNextMonth | src/app/api/payments/status/route.ts:32 | a date is before the next month's start iff its month is the selected month or earlier |
| Calendar.DayOf | src/app/api/pg-menu/route.ts:20 | today's date at midnight: same year, month and day, and not after the instant |
| Billing.PaymentsOf | src/app/api/payments/status/route.ts:28 | the payment `$lookup`: exactly the payments whose tenantId is the tenant's id |
| Billing.PaidBefore | src/app/api/payments/status/route.ts:32 | exactly the payments dated strictly before the bound |
| Billing.PaidWithin | src/app/api/payments/status/route.ts:33 | exactly the payments dated in the window |
| Billing.RentOf | src/app/api/payments/status/route.ts:31 | `$ifNull` on the rent: the room's rent, or 0 when there is no room or no rent |
| Billing.MonthsBilled | src/app/api/payments/status/route.ts:34 | at least 1; k months when the tenant joined k ≥ 1 months earlier, and 1 otherwise |
| Billing.MonthStatus | src/app/api/payments/status/route.ts:47-51 | "Paid" iff paid ≥ rent; "Partially Paid" iff 0 < paid < rent; "Unpaid" iff paid ≤ 0 and paid < rent |
| Billing.NoRentIsPaid | src/app/api/payments/status/route.ts:49 | with non-negative amounts, a rent of 0 always reads "Paid" |
| Billing.PaidWithinAtMostPaidBefore | src/app/api/payments/status/route.ts:32-33 | with non-negative amounts, the month's payments total at most the payments before the month's end |
| Billing.PaidBeforeIsAll | src/app/api/payments/tenant-details/route.ts:46 | when no payment is dated after the bound, filtering by the bound keeps all payments |
| PaymentStatusRoute.Roster | src/app/api/payments/status/route.ts:25-27 | a (tenant, room) pair is on the roster iff the tenant belongs to the PG, has a roomId, joined before the month's end, and its room exists |
| PaymentStatusRoute.FirstId | src/app/api/payments/status/route.ts:40 | absent iff no payment falls in the month; otherwise the first one's id |
| PaymentStatusRoute.RowFor | src/app/api/payments/status/route.ts:29-62 | due = rent × months − paid before month end, not clamped; the status compares the month's total with the rent; paymentId is present iff the tenant paid in the month, and then names the first such payment in stored order |
| PaymentStatusRoute.FirstInMonthIsFirstStored | src/app/api/payments/status/route.ts:28-40 | the first payment of the `$lookup` then `$filter` is the tenant's first in-month payment in stored order |
| PaymentStatusRoute.RowsFor | src/app/api/payments/status/route.ts:56-64 | one row per roster entry, in order |
| PaymentStatusRoute.Get | src/app/api/payments/status/route.ts:13-15 | 400 iff pgId or date is missing; otherwise the rows of the roster for that month |
| PaymentStatusRoute.WindowFacts | src/app/api/payments/status/route.ts:21-22 | the month window holds exactly the selected year and month |
| PaymentStatusRoute.RowsMatchRoster | src/app/api/payments/status/route.ts:56-64 | every row comes from a roster entry, and every roster entry has its row |
| PaymentStatusRoute.RowsAreTheRoster | src/app/api/payments/status/route.ts:24-64 | every row belongs to a qualifying tenant with an existing room, and every such tenant has its row |
| PaymentStatusRoute.FebruaryAsComputed | src/app/api/payments/status/route.ts:34 | a tenant who joined on 15 January and paid 3000 against rent 5000, viewed in February, is billed 1 month, owes 2000, and reads "Partially Paid" |
| PaymentStatusRoute.JanuaryAsComputed | src/app/api/payments/status/route.ts:34-51 | the same tenant viewed in January owes 5000, reads "Unpaid", and has no paymentId |
| TenantDetailsRoute.RoomOf | src/app/api/payments/tenant-details/route.ts:28-29 | the room `$lookup` that keeps the tenant: the room its roomId names, when it exists |
| TenantDetailsRoute.DetailsFor | src/app/api/payments/tenant-details/route.ts:35-66 | rent defaults to 0; due = rent × months to now − all of the tenant's payments, with no date filter; the history is exactly the tenant's payments |
| TenantDetailsRoute.Get | src/app/api/payments/tenant-details/route.ts:12-14 | 400 iff the id is missing; 404 iff no tenant has it; otherwise that tenant's details |
| TenantDetailsRoute.NoRoomMeansNoRent | src/app/api/payments/tenant-details/route.ts:29 | a tenant with no room or a deleted room is still reported, with rent 0 and due = −(total paid) |
| TenantDetailsRoute.DetailsAgreeWithRoster | src/app/api/payments/tenant-details/route.ts:46-56 | for the current month, with the room present and no later payments, the due amount equals the roster row's |
| Ledger.Closed | src/app/api/assignments/upgrade/route.ts:25-28 | an active record of the tenant gets isActive false and endDate now; room, PG, rent and start date are kept; other records are unchanged |
| Ledger.DeactivateAll | src/app/api/assignments/upgrade/route.ts:25-28 | `updateMany` closes each record in place; the length is unchanged |
| Ledger.Opened | src/app/api/assignments/upgrade/route.ts:31-38 | the inserted record is active from now, has no end date, and has rent `Number(newRent)` |
| Ledger.PointedAt | src/app/api/assignments/upgrade/route.ts:43-46 | only the tenant's roomId and pgId change, to the new values |
| Ledger.RepointedOnly | src/app/api/tenants/assign/route.ts:23-31 | repointing changes exactly the tenant with that id and keeps ids unique |
| Ledger.Upgraded | src/app/api/assignments/upgrade/route.ts:25-39 | the old records all end inactive, and only the tenant's active ones change, closed at now; then one active record for the new room and PG from now |
| Ledger.Repointed | src/app/api/assignments/upgrade/route.ts:43-46 | the tenant `updateOne`: length and ids kept, no change for an unknown id, and only the tenant with that id gets the new room and PG |
| Ledger.DeactivateAllCloses | src/app/api/assignments/upgrade/route.ts:25-28 | afterwards the tenant has no active record; its active records are closed at now, and other tenants' records are untouched |
| Ledger.UpgradeLeavesOneActive | src/app/api/assignments/upgrade/route.ts:25-39 | after an upgrade the tenant has exactly one active record, the appended one |
| Ledger.UpgradeLeavesOthers | src/app/api/assignments/upgrade/route.ts:25-28 | an upgrade leaves every other tenant's count of active records unchanged |
| Ledger.UpgradeTwice | src/app/api/assignments/upgrade/route.ts:25-39 | a second upgrade keeps the tenant's active count at one |
| Ledger.AssignAddsActive | src/app/api/assignments/route.ts:27-36 | the assigning POST raises the tenant's active count by one and closes nothing |
| Ledger.AssignAfterUpgradeBreaksInvariant | src/app/api/assignments/route.ts:27-36 | an assignment after an upgrade leaves the tenant with two active records |
| AssignmentsRoute.Post | src/app/api/assignments/route.ts:11-38 | 400 on a missing field or an undefined rent (0 passes); 404 and nothing written for an unknown tenant; otherwise the tenant is repointed and one active record is appended |
| AssignmentsRoute.Put | src/app/api/assignments/route.ts:50-81 | 400 on a missing field; otherwise all active records are closed, one is appended and the tenant is repointed, with 200 even for an unknown tenant |
| UpgradeRoute.Put | src/app/api/assignments/upgrade/route.ts:12-48 | 400 on a missing field; otherwise close, append and repoint, with no not-found check |
| TenantAssignRoute.Put | src/app/api/tenants/assign/route.ts:13-37 | 400 on a missing field; 404 and no change for an unknown tenant; otherwise only that tenant's room and PG change; the ledger is not touched |
| TenantsRoute.NewTenant | src/app/api/tenants/route.tsx:21 | the inserted tenant has the given fields, no room and no password |
| TenantsRoute.Post | src/app/api/tenants/route.tsx:9-23 | 400 on a missing field; 409 and no insert on a used mobile; otherwise one tenant appended (201); unique mobiles stay unique |
| TenantsRoute.OfPg | src/app/api/tenants/route.tsx:39 | exactly the tenants of the PG; the structure views' tenant `$lookup` is the same filter |
| TenantsRoute.Get | src/app/api/tenants/route.tsx:34-40 | 400 iff no pgId; otherwise exactly the PG's tenants |
| TenantsRoute.Edited | src/app/api/tenants/route.tsx:64-67 | only name, mobile and address change |
| TenantsRoute.EditKeepsUnique | src/app/api/tenants/route.tsx:59-67 | an edit keeps ids unique, and keeps mobiles unique when no other tenant has the new mobile |
| TenantsRoute.Put | src/app/api/tenants/route.tsx:51-73 | 400; 409 only when a different tenant has the mobile; 404 for an unknown id; otherwise that tenant edited (200); unique mobiles stay unique |
| TenantsRoute.Delete | src/app/api/tenants/route.tsx:85-96 | 400 without an id; 404 when nothing matches; otherwise exactly that tenant removed |
| UnassignedRoute.Get | src/app/api/tenants/unassigned/route.ts:12-25 | 400 iff no pgId; every summary is of a tenant of the PG with no room, and every such tenant appears, projected to id, name and mobile |
| ChangePasswordRoute.WithPassword | src/app/api/tenants/change-password/route.ts:34-37 | only the password changes, to the given hash |
| ChangePasswordRoute.Put | src/app/api/tenants/change-password/route.ts:12-39 | 400; 404 for an unknown tenant; 403 and no change when compare fails; otherwise that tenant's password becomes hash(newPassword) |
| ChangePasswordRoute.RehashedOnly | src/app/api/tenants/change-password/route.ts:34-37 | the update touches only the password of the tenant with that id |
| TenantCheckMobileRoute.Post | src/app/api/auth/tenant-check-mobile/route.ts:9-23 | 400 iff no mobile; 404 iff no tenant has it; 200 iff some tenant has it; reads only |
| PgsRoute.Post | src/app/api/pgs/route.tsx:10-26 | 400 on a missing field; otherwise one PG with that owner appended, with no uniqueness check (201) |
| PgsRoute.OwnedBy | src/app/api/pgs/route.tsx:49 | exactly the PGs of the owner |
| PgsRoute.Get | src/app/api/pgs/route.tsx:41-51 | 400 iff no ownerId; otherwise exactly the owner's PGs |
| FloorsRoute.Clash | src/app/api/pg-structure/floors/route.ts:21 | the `findOne` matches only a JSON number, and then iff the PG has a floor with `Number` of it |
| FloorsRoute.Post | src/app/api/pg-structure/floors/route.ts:13-35 | 400 without pgId or with an undefined number (0 passes); 409 and no insert on a clash; otherwise one floor with `Number(floorNumber)` appended; numeric input keeps floor numbers unique per PG |
| FloorsRoute.OfPg | src/app/api/pg-structure/floors/route.ts:55 | exactly the floors of the PG; the structure views' floor `$lookup` is the same filter |
| FloorsRoute.Get | src/app/api/pg-structure/floors/route.ts:48-57 | 400 iff no pgId; otherwise exactly the PG's floors |
| FloorsRoute.TextFloorNumberIsNotMatched | src/app/api/pg-structure/floors/route.ts:21-28 | the text "1" does not match a stored 1, yet is stored as 1, making a duplicate |
| RoomsRoute.NewRoom | src/app/api/pg-structure/rooms/route.ts:26-32 | the room number is stored as text, the capacity as a number, and there is no rent |
| RoomsRoute.Clash | src/app/api/pg-structure/rooms/route.ts:21 | the `findOne` matches only a JSON string, and then iff the floor has a room with that text as its number |
| RoomsRoute.Post | src/app/api/pg-structure/rooms/route.ts:13-37 | 400 on a falsy id or room number or an undefined capacity; 409 and no insert on a clash; otherwise one room appended; string input keeps room numbers unique per floor |
| RoomsRoute.OnFloor | src/app/api/pg-structure/rooms/route.ts:57 | exactly the rooms of the floor |
| RoomsRoute.Get | src/app/api/pg-structure/rooms/route.ts:50-59 | 400 iff no floorId; otherwise exactly the floor's rooms |
| RoomsRoute.NumericRoomNumberIsNotMatched | src/app/api/pg-structure/rooms/route.ts:21-29 | the number 101 does not match a stored "101", yet is stored as "101", making a duplicate |
| SetRentRoute.WithRent | src/app/api/pg-structure/set-rent/route.ts:22-25 | only the rent changes |
| SetRentRoute.RentSetOnOnly | src/app/api/pg-structure/set-rent/route.ts:22-25 | exactly that room's rent changes; ids stay unique; non-negative rents stay non-negative |
| SetRentRoute.Put | src/app/api/pg-structure/set-rent/route.ts:12-31 | 400 when the id is missing or the rent is undefined; 400 when the rent is not a number or is negative; 404 for an unknown room; otherwise only that room's rent is set; every stored rent stays ≥ 0 |
| PgTree.RoomsOfPg | src/app/api/pg-structure/all/route.ts:30 | exactly the rooms whose pgId is the PG |
| PgTree.RoomNodeFor | src/app/api/pg-structure/all/route.ts:53 | a room's tenants are exactly the PG's tenants whose roomId is the room |
| PgTree.FloorNodeFor | src/app/api/pg-structure/all/route.ts:47-48 | a floor's rooms are exactly the PG's rooms on that floor, each with its tenants |
| PgTree.PgNodeFor | src/app/api/pg-structure/all/route.ts:38-67 | a PG's floors are exactly its floors, each with its rooms; the temporary arrays are not part of the node |
| PgTree.Nesting | src/app/api/pg-structure/view-tenants/route.ts:47-53 | every nested room belongs to the PG and to its floor; a tenant sits under a room iff its roomId names that room |
| PgTree.UnassignedAppearNowhere | src/app/api/pg-structure/all/route.ts:53 | a tenant with no room appears under no room |
| PgTree.OrphanRoomsDropped | src/app/api/pg-structure/all/route.ts:47-48 | a room whose floor is not a floor of the PG appears nowhere |
| PgTree.RoomsPlaced | src/app/api/pg-structure/all/route.ts:47-48 | every room of the PG on one of its floors appears under that floor |
| StructureAllRoute.Get | src/app/api/pg-structure/all/route.ts:13-70 | 400 iff no ownerId; otherwise one tree per PG of the owner, and every such PG has its tree |
| ViewTenantsRoute.Get | src/app/api/pg-structure/view-tenants/route.ts:13-76 | 400 without pgId; 404 iff no PG has the id; otherwise the tree of that single PG |
| ViewTenantsRoute.ViewIsOwnersTree | src/app/api/pg-structure/view-tenants/route.ts:26-53 | the single-PG view equals that PG's tree in its owner's full structure |
| VerifyRoute.SignedText | src/app/api/payments/verify/route.ts:26-27 | the signed message is orderId, then "\|", then paymentId |
| VerifyRoute.Decide | src/app/api/payments/verify/route.ts:12-56 | 500 on a missing URI or secret; 400 iff a detail is missing; 400 iff the signature is not the HMAC; a storage failure gives 500 with its message; otherwise the payment with the given ids, amount and currency, dated now |
| VerifyRoute.Post | src/app/api/payments/verify/route.ts:12-56 | applies the decision, and appends exactly that payment only on success, changing no stored payment |
| VerifyRoute.ForgedSignatureRefused | src/app/api/payments/verify/route.ts:25-33 | a signature other than the HMAC never records a payment |
| DummyVerifyRoute.StoredAmount | src/app/api/payments/dummy-verify/route.ts:24 | `Number(amount)` when it is finite |
| DummyVerifyRoute.Decide | src/app/api/payments/dummy-verify/route.ts:13-32 | 400 iff the raw amount is falsy or an id is missing; otherwise a payment of `Number(amount)`, with currency defaulting to "INR" and timestamped dummy ids |
| DummyVerifyRoute.ZeroTextIsRecorded | src/app/api/payments/dummy-verify/route.ts:13-24 | the text "0" is truthy, so it passes the 400 check and a payment of 0 is recorded |
| DummyVerifyRoute.Post | src/app/api/payments/dummy-verify/route.ts:13-34 | appends exactly that payment, with no signature check; existing payments are unchanged |
| DummyVerifyRoute.IdsCarryTimestamp | src/app/api/payments/dummy-verify/route.ts:27-28 | the order and payment ids are the prefixes followed by the decimal timestamp, which reads back to the timestamp |
| ExportRoute.RowOf | src/app/api/payments/export/route.ts:36-43 | a row holds exactly Date, Tenant, Room, Amount and TransactionID, taken from the payment and its joins |
| ExportRoute.RowFor | src/app/api/payments/export/route.ts:28-35 | a payment yields a row iff it is of the PG, in the month, and its tenant and room exist; the row then carries the amount, transaction id, day, tenant name and room number |
| ExportRoute.Entries | src/app/api/payments/export/route.ts:23-35 | a row is present iff its payment is of the PG, in the month, and its tenant and room exist |
| ExportRoute.Get | src/app/api/payments/export/route.ts:16-44 | 400 iff pgId or date is missing; otherwise a permutation of the entries, sorted ascending by date |
| ExportRoute.ReportIsTheMonth | src/app/api/payments/export/route.ts:23-31 | a payment's row appears iff it is of the PG, dated in the selected calendar month, and joinable |
| ReceiptRoute.ReceiptOf | src/app/api/payments/receipt/route.ts:36-47 | the receipt fields come from the payment, tenant, PG and room |
| ReceiptRoute.Get | src/app/api/payments/receipt/route.ts:12-55 | 400 iff no id; 404 iff the payment, its tenant, its PG or its room is missing; otherwise the receipt of the first match |
| ReceiptRoute.RecordedPaymentHasReceipt | src/app/api/payments/receipt/route.ts:21-47 | a newly appended payment with existing joins has a receipt carrying its amount, gateway id and date |
| TicketsRoute.NewTicket | src/app/api/tickets/route.ts:17-25 | a new ticket has status "open" and createdAt now |
| TicketsRoute.Post | src/app/api/tickets/route.ts:11-26 | 400 on a missing field; otherwise one open ticket appended (201) |
| TicketsRoute.RowOf | src/app/api/tickets/route.ts:59-69 | a listing row carries the ticket's fields and the joined tenant and room |
| TicketsRoute.RowFor | src/app/api/tickets/route.ts:48-57 | a ticket yields a row iff its PG exists with that owner and its tenant and room exist; the row then carries the ticket's id, status and date and the joined names |
| TicketsRoute.Entries | src/app/api/tickets/route.ts:48-57 | a ticket is listed iff its PG exists with that owner, and its tenant and room exist |
| TicketsRoute.Get | src/app/api/tickets/route.ts:38-71 | 400 iff no ownerId; otherwise a permutation of the entries, newest first |
| TicketsRoute.ListingIsTheOwners | src/app/api/tickets/route.ts:48-57 | a row is listed iff it is built from a ticket whose PG has that owner and whose tenant and room exist |
| TicketsRoute.WithStatus | src/app/api/tickets/route.ts:93-96 | only the status changes, to any given string |
| TicketsRoute.StatusSetOnOnly | src/app/api/tickets/route.ts:93-96 | exactly that ticket's status changes, and ids stay unique |
| TicketsRoute.Put | src/app/api/tickets/route.ts:86-102 | 400 without an id or status; 404 for an unknown ticket; otherwise only that ticket's status changes (200) |
| TicketsRoute.NewTicketListedOpen | src/app/api/tickets/route.ts:17-71 | a ticket just submitted on an owner's PG is listed for the owner with status "open" |
| MenuRoute.Upserted | src/app/api/pg-menu/route.ts:22-37 | the menu is present afterwards; it is appended when its slot was empty, and otherwise replaces that slot without adding a record; other menus are kept |
| MenuRoute.UpsertKeepsSlotsUnique | src/app/api/pg-menu/route.ts:33-37 | at most one menu per PG and day, before and after |
| MenuRoute.TodaysMenu | src/app/api/pg-menu/route.ts:20-37 | the stored menu's slot is (pgId, today at midnight), with the given meals and lastUpdatedAt now |
| MenuRoute.Post | src/app/api/pg-menu/route.ts:10-39 | 400 on a missing meal or pgId; otherwise the (pgId, today) upsert (200), keeping slots unique |
| MenuRoute.Get | src/app/api/pg-menu/route.ts:51-65 | 400 iff no pgId; 404 iff there is no menu for (pgId, today); otherwise that menu |
| MenuRoute.SetThenRead | src/app/api/pg-menu/route.ts:22-63 | a GET the same day after a POST returns the posted meals |
| MenuRoute.OtherPgsUnaffected | src/app/api/pg-menu/route.ts:33-63 | a POST for one PG leaves every other PG's menu for the day as it was |
| Admins.NewAdmin | src/app/api/admins/route.ts:25-27 | a new admin has role "admin" and exactly the one product's id |
| Admins.AppendKeepsUnique | src/app/api/admins/route.ts:17-27 | appending an admin with a fresh id and an unused email keeps ids and emails unique |
| Admins.RemoveKeepsEmails | src/app/api/admins/route.ts:72-75 | removing a user keeps ids and emails unique |
| Admins.Create | src/app/api/admins/route.ts:12-33 | 400 on a missing field; a storage fault gives 500; then 409 on a used email, before 400 on an unknown product key; otherwise one admin appended (201); ids and emails stay unique |
| Admins.Edited | src/app/api/admins/route.ts:50-53 | only name, email and phone change |
| Admins.EditKeepsUnique | src/app/api/admins/route.ts:46-53 | an edit keeps ids unique, and keeps emails unique when no other user has the email |
| Admins.Update | src/app/api/admins/route.ts:41-54 | 400; a fault gives 500; 409 only when a different user has the email; 404 for an unknown id; otherwise that user edited (200) |
| Admins.KeepingOwnEmailAllowed | src/app/api/admins/route.tsx:63-66 | re-saving a user with its own email is not a conflict |
| Admins.Delete | src/app/api/admins/route.ts:66-76 | 400 without an id; a fault gives 500; 404 when nothing matches; otherwise exactly that user removed |
| AdminsRoute.FaultOf | src/app/api/admins/route.ts:29-33 | a thrown error's 500 carries its message |
| AdminsRoute.Post | src/app/api/admins/route.ts:10-33 | a missing core URI gives 500 with its message; otherwise the shared create outcome becomes the reply and the new users |
| AdminsRoute.Put | src/app/api/admins/route.ts:39-54 | the same for the update outcome |
| AdminsRoute.Delete | src/app/api/admins/route.ts:64-76 | the same for the delete outcome, with the id from the query string |
| AdminsRoute.FaultCarriesMessage | src/app/api/admins/route.ts:29-33 | an error thrown with message m, on a complete create request, gives a 500 carrying m |
| AdminsLegacyRoute.FaultOf | src/app/api/admins/route.tsx:44-47 | every fault maps to the generic message |
| AdminsLegacyRoute.Post | src/app/api/admins/route.tsx:11-47 | the shared create outcome, with generic 500s |
| AdminsLegacyRoute.Put | src/app/api/admins/route.tsx:55-82 | the shared update outcome, with generic 500s |
| AdminsLegacyRoute.Delete | src/app/api/admins/route.tsx:88-108 | the shared delete outcome, with the id from the body, and generic 500s |
| AdminsLegacyRoute.FaultsAreGeneric | src/app/api/admins/route.tsx:44-47 | a 500 of this variant never carries error detail |
| PgManagementRoute.Public | src/app/api/admins/pg-management/route.tsx:31 | the projection drops the password and keeps every other field |
| PgManagementRoute.HoldersOf | src/app/api/admins/pg-management/route.tsx:29-32 | exactly the users whose assigned products include the product's id |
| PgManagementRoute.Get | src/app/api/admins/pg-management/route.tsx:19-41 | 404 when no product has the key "pg-management"; a fault gives 500 with its message; otherwise the holders, without passwords |
| ProductsRoute.ActiveProducts | src/app/api/products/route.ts:41-44 | exactly the active products |
| ProductsRoute.ActiveAmong | src/app/api/products/route.ts:50-53 | exactly the active products whose id is in the list |
| ProductsRoute.AssignedTo | src/app/api/products/route.ts:45-55 | the admin's listing: only stored, active products |
| ProductsRoute.Get | src/app/api/products/route.ts:22-63 | 500 without a core URI; 400 without userId or role; all active products for a superadmin; the admin's active assigned products; an empty list for any other role; every product returned is active |
| ProductsRoute.AdminSeesAssigned | src/app/api/products/route.ts:45-55 | an admin with a non-empty list sees exactly its active assigned products; an absent or empty list sees nothing |
| LoginRoute.FirstAssigned | src/app/api/auth/login/route.tsx:43-44 | present iff the user is an admin with a non-empty list; then the first id |
| LoginRoute.SessionFor | src/app/api/auth/login/route.tsx:35-50 | id, name, email and role only; productKey is present iff the first assigned product exists, and is then its key |
| LoginRoute.Post | src/app/api/auth/login/route.tsx:17-63 | the same 401 "Invalid credentials" for an unknown email and for a wrong password; 500 iff the email is known and no string password was sent; Ok iff the first user with that email exists and its password verifies, and then that user's session |
| LoginRoute.MissingPasswordIsServerError | src/app/api/auth/login/route.tsx:28-63 | a known email sent without a password gets the 500 of the catch, not a 401 |
| LoginRoute.OnlyAdminsGetProductKey | src/app/api/auth/login/route.tsx:43 | a non-admin, including a superadmin, never gets a productKey |
| LoginRoute.MissingFirstProductGivesNoKey | src/app/api/auth/login/route.tsx:44 | only the first assigned product is consulted |
| UserLoginRoute.Post | src/app/api/auth/user-login/route.tsx:9-43 | 400 without a mobile; 404 for an unknown mobile; 404 when the tenant's PG is missing; otherwise the summaries of the first tenant with that mobile and of its PG, with no password check |
| UserLoginRoute.CheckAgreesWithLogin | src/app/api/auth/user-login/route.tsx:17-21 | the login finds an account exactly when the mobile check reports one |
| SeedProducts.Missing | scripts/seed-products.js:50-56 | exactly the catalogue entries whose product key is not stored, in list order |
| SeedProducts.QueueNew | scripts/seed-products.js:49-60 | the loop queues exactly the missing entries |
| SeedProducts.Stamped | scripts/seed-products.js:53-56 | each queued entry keeps its fields and gains its id and createdAt |
| SeedProducts.SeedList | scripts/seed-products.js:34-73 | exit on a missing URI; nothing inserted when nothing is new; otherwise the stamped missing entries appended after the unchanged stored products |
| SeedProducts.Seed | scripts/seed-products.js:8-73 | the same, on the script's own three-entry catalogue |
| SeedProducts.SecondRunFindsNothing | scripts/seed-products.js:49-73 | after a run, a second run finds nothing new, so the script is idempotent |
| SeedSuperadmin.SuperadminUser | scripts/seed-superadmin.js:43-50 | the fixed name and email, the hashed password, role "superadmin", no products, createdAt now |
| SeedSuperadmin.Seed | scripts/seed-superadmin.js:17-54 | exit on a missing URI; abort without inserting when the email exists; otherwise the superadmin appended; afterwards the email is stored |
| SeedSuperadmin.SeedKeepsEmailsUnique | scripts/seed-superadmin.js:32-54 | inserting onto an absent email keeps emails unique |
| SeedSuperadmin.SeededFoundByEmail | scripts/seed-superadmin.js:32-36 | after seeding, the email lookup finds the new account, so a re-run aborts |
| SeedSuperadmin.SeededCanLogIn | scripts/seed-superadmin.js:40-50 | the seeded account logs in with its password when compare accepts the hash, and gets a superadmin session with no productKey |

## Left out

- Database I/O, connection caching and environment loading. The collections are
  in-memory tables. A missing PG-database URI is not modelled: those routes read it with a
  non-null assertion, and it is only passed on to the connection.
- Storage exceptions are modelled only where the reply's text depends on what was thrown.
  That is the admins routes, the pg-management listing, the products listing and payment
  verification. Elsewhere a thrown error only produces the route's fixed 500 reply.
  `tenants/route.tsx` uses its own 500 text, "Internal server error.". Neither one is
  modelled.
- `request.json()` failures and a malformed query string are not modelled. Each of them
  would end in the route's 500.
- ObjectId parse failures are not modelled. Ids are opaque strings, and `new ObjectId(x)`
  on a valid id is the id itself.
- `new Date(dateString)` parsing, an invalid date, and the local-time versus UTC difference
  between `getMonth()` and `$month` are not modelled. Dates are tuples passed in as
  parameters, and a date is only guaranteed to have a day from 1 to 31, not a day that
  exists in its month.
- Every `new Date()` in one request is read as the same instant.
- bcrypt's salt and cost, and the internals of HMAC-SHA256, are not modelled. The hash,
  the compare and the HMAC are uninterpreted parameters.
- Floating point is not modelled. Number amounts and rents are integers, and `Number()`
  reads only decimal digit strings, with an optional leading `-` or `+`. Hex, exponents,
  whitespace and fractions are NaN in the model.
- Both connection paths are taken to reach the same collections. Facts that combine
  routes on different paths, such as `UserLoginRoute.CheckAgreesWithLogin`, hold only when
  `MONGODB_URI`'s `smartnexai_db` and the default databases of `MONGODB_URI_PG` and
  `MONGODB_URI_CORE` are the same databases.
- DummyVerifyRoute.Decide: a truthy amount whose `Number()` is NaN, such as the text "abc",
  is stored by the route as NaN. Payment amounts are integers in the model, so it stores 0
  there. Only truthy amounts with a finite `Number()` are promised to be stored as that
  number.
- VerifyRoute.Decide: the payment amount is an integer. A non-numeric amount in the
  request, which the route would store as sent, is not modelled.
- `$sort` does not fix an order between equal keys. The listings are proved sorted and a
  permutation of their entries, but the order among equal dates is not stated.
- `$dateToString` formatting and the Excel/base64 branch of the export route are not
  modelled. The export's Date is the payment's calendar day, held as that day at midnight
  (`Calendar.DayOf` of the payment date) rather than as the `%Y-%m-%d` text.
- `createIndex` calls in the seed scripts, console logging and `process.exit` are not
  modelled. The seed scripts' catch blocks, which only log, are not modelled either.
- Concurrent requests, and check-then-insert races between them, are not modelled. The
  model is sequential.
- VerifyRoute.Decide: the route never checks pgId and roomId before `new ObjectId(pgId)`
  and `new ObjectId(roomId)`. With the field absent, that call makes a fresh ObjectId, and
  the route stores that. The model stores the empty string instead.
- LoginRoute.Post: a request without an email matches a stored user whose email is null
  in MongoDB. In the model the empty string plays both roles.
- The order in which independent awaits complete is not modelled. Each handler is one
  sequential step.
