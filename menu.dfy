/** `/api/pg-menu`: the owner sets today's menu of a PG; tenants read it. A menu is keyed
    by its PG and the UTC calendar day (`toISOString().split('T')[0]`), modelled as
    midnight of that day. */
module MenuRoute {
  import opened Base
  import opened Calendar
  import opened Tables
  import opened Records
  import opened Stores

  const MissingMeals := "PG ID and all meal details are required."
  const MenuUpdated := "Menu updated successfully!"
  const MissingPg := "PG ID is required."
  const MenuNotSet := "Today's menu has not been set yet."

  /** `findOneAndUpdate(slot, { $set: m }, { upsert: true })`: the first menu in `m`'s slot is
      replaced by `m`; with none, `m` is inserted. */
  function Upserted(menus: seq<Menu>, m: Menu): (r: seq<Menu>)
    ensures m in r
    ensures KeyAbsent(menus, MenuSlot, MenuSlot(m)) ==> r == menus + [m]
    ensures !KeyAbsent(menus, MenuSlot, MenuSlot(m)) ==> |r| == |menus|
    ensures forall x :: x in menus && MenuSlot(x) != MenuSlot(m) ==> x in r
    ensures forall x :: x in r ==> x == m || x in menus
  {
    match IndexOf(menus, MenuSlot, MenuSlot(m))
    case None => menus + [m]
    case Some(i) =>
      forall x | x in menus && MenuSlot(x) != MenuSlot(m) ensures x in menus[i := m] {
        var j :| 0 <= j < |menus| && menus[j] == x;
        assert menus[i := m][j] == x;
      }
      forall x | x in menus[i := m] ensures x == m || x in menus {
        var j :| 0 <= j < |menus| && menus[i := m][j] == x;
        if j != i {
          assert menus[j] == x;
        }
      }
      assert menus[i := m][i] == m;
      menus[i := m]
  }

  /** The upsert keeps one menu per PG and day. */
  lemma UpsertKeepsSlotsUnique(menus: seq<Menu>, m: Menu)
    requires UniqueKeys(menus, MenuSlot)
    ensures UniqueKeys(Upserted(menus, m), MenuSlot)
  {
    match IndexOf(menus, MenuSlot, MenuSlot(m))
    case None => UniqueAfterAppend(menus, MenuSlot, m);
    case Some(i) => UniqueAfterReplace(menus, MenuSlot, i, m);
  }

  /** The document POST writes for today. */
  function TodaysMenu(pgId: Id, breakfast: string, lunch: string, dinner: string, now: Date): (m: Menu)
    ensures MenuSlot(m) == (pgId, DayOf(now)) && m.lastUpdatedAt == now
    ensures m.breakfast == breakfast && m.lunch == lunch && m.dinner == dinner
  {
    Menu(pgId, DayOf(now), breakfast, lunch, dinner, now)
  }

  /** POST: 400 on a missing field, else today's menu of the PG is created or replaced (200). */
  method Post(db: PgDatabase, pgId: Id, breakfast: string, lunch: string, dinner: string, now: Date)
    returns (resp: Response)
    requires db.Valid()
    modifies db`menus
    ensures db.Valid()
    ensures pgId == "" || breakfast == "" || lunch == "" || dinner == "" ==>
      resp == Response(400, MissingMeals) && db.menus == old(db.menus)
    ensures !(pgId == "" || breakfast == "" || lunch == "" || dinner == "") ==>
      resp == Response(200, MenuUpdated)
      && db.menus == Upserted(old(db.menus), TodaysMenu(pgId, breakfast, lunch, dinner, now))
  {
    if pgId == "" || breakfast == "" || lunch == "" || dinner == "" {
      return Response(400, MissingMeals);
    }
    var m := TodaysMenu(pgId, breakfast, lunch, dinner, now);
    UpsertKeepsSlotsUnique(db.menus, m);
    db.menus := Upserted(db.menus, m);
    return Response(200, MenuUpdated);
  }

  /** GET: 400 without a PG id, 404 when the PG has no menu for today, else that menu. */
  function Get(menus: seq<Menu>, pgId: Id, now: Date): (r: Reply<Menu>)
    ensures r == Err(400, MissingPg) <==> pgId == ""
    ensures r == Err(404, MenuNotSet) <==> pgId != "" && KeyAbsent(menus, MenuSlot, (pgId, DayOf(now)))
    ensures r.Ok? ==> r.body in menus && MenuSlot(r.body) == (pgId, DayOf(now))
  {
    if pgId == "" then Err(400, MissingPg)
    else match Lookup(menus, MenuSlot, (pgId, DayOf(now)))
      case None => Err(404, MenuNotSet)
      case Some(m) => Ok(m)
  }

  /** Reading on the day a menu was set, at any later moment of that day, gives back the
      menu that was set, whether it was created or replaced. */
  lemma SetThenRead(menus: seq<Menu>, pgId: Id, breakfast: string, lunch: string, dinner: string, now: Date, later: Date)
    requires UniqueKeys(menus, MenuSlot) && pgId != "" && DayOf(later) == DayOf(now)
    ensures Get(Upserted(menus, TodaysMenu(pgId, breakfast, lunch, dinner, now)), pgId, later)
         == Ok(TodaysMenu(pgId, breakfast, lunch, dinner, now))
  {
    var m := TodaysMenu(pgId, breakfast, lunch, dinner, now);
    var r := Upserted(menus, m);
    UpsertKeepsSlotsUnique(menus, m);
    var j :| 0 <= j < |r| && r[j] == m;
    LookupFindsOnly(r, MenuSlot, j);
  }

  /** Setting one PG's menu leaves what every other PG reads unchanged. */
  lemma OtherPgsUnaffected(menus: seq<Menu>, m: Menu, other: Id, now: Date)
    requires UniqueKeys(menus, MenuSlot) && other != m.pgId
    ensures Get(Upserted(menus, m), other, now) == Get(menus, other, now)
  {
    if other != "" {
      var slot := (other, DayOf(now));
      match IndexOf(menus, MenuSlot, MenuSlot(m)) {
        case None =>
          var s := menus + [m];
          assert forall j :: 0 <= j < |menus| ==> s[j] == menus[j];
          assert MenuSlot(s[|menus|]) != slot;
          match IndexOf(menus, MenuSlot, slot) {
            case None =>
              assert IndexOf(s, MenuSlot, slot).None?;
            case Some(k) =>
              assert IndexOf(s, MenuSlot, slot) == Some(k);
          }
        case Some(i) =>
          var s := menus[i := m];
          assert forall j :: 0 <= j < |s| && j != i ==> s[j] == menus[j];
          assert MenuSlot(s[i]) != slot;
          match IndexOf(menus, MenuSlot, slot) {
            case None =>
              assert IndexOf(s, MenuSlot, slot).None?;
            case Some(k) =>
              assert k != i;
              assert IndexOf(s, MenuSlot, slot) == Some(k);
          }
      }
    }
  }
}
