/** `scripts/seed-products.js`: add the product catalogue to the core database, skipping
    every product whose key is already stored. */
module SeedProducts {
  import opened Base
  import opened Calendar
  import opened Tables
  import opened Records
  import opened Stores

  /** A catalogue entry, before it gets an `_id` and a `createdAt`. */
  datatype ProductSpec = ProductSpec(productName: string, productKey: string, description: string,
                                     accessUrl: string, isActive: bool)

  const Catalog: seq<ProductSpec> := [
    ProductSpec("College Management System", "college-management",
                "A full suite for managing all college operations, from admissions to alumni.",
                "/dashboard/college-management", true),
    ProductSpec("Mess Management", "mess-management",
                "Manages daily mess attendance, billing, inventory, and menus.",
                "/dashboard/mess-management", true),
    ProductSpec("PG Management", "pg-management",
                "Handles tenant onboarding, rent collection, complaints, and room allocation.",
                "/dashboard/pg-management", true)
  ]

  /** How a run ends: exit on a missing URI, nothing to add, or a number of products inserted. */
  datatype SeedOutcome = MissingUri | NothingNew | Inserted(count: nat)

  /** `findOne({ productKey })` finds nothing. */
  predicate IsNew(existing: seq<Product>, spec: ProductSpec)
  {
    KeyAbsent(existing, ProductKeyText, spec.productKey)
  }

  /** The entries of `toAdd` whose key is not stored, in list order. */
  function Missing(existing: seq<Product>, toAdd: seq<ProductSpec>): (r: seq<ProductSpec>)
    ensures forall s :: s in r <==> s in toAdd && IsNew(existing, s)
    ensures |r| <= |toAdd|
  {
    Filter(toAdd, (s: ProductSpec) => IsNew(existing, s))
  }

  /** One more entry of the list: it is queued exactly when its key is not stored. */
  lemma MissingStep(existing: seq<Product>, toAdd: seq<ProductSpec>, i: nat)
    requires i < |toAdd|
    ensures Missing(existing, toAdd[..i + 1]) ==
      Missing(existing, toAdd[..i]) + if IsNew(existing, toAdd[i]) then [toAdd[i]] else []
  {
    assert toAdd[..i + 1] == toAdd[..i] + [toAdd[i]];
    FilterAppend(toAdd[..i], [toAdd[i]], (s: ProductSpec) => IsNew(existing, s));
    assert [toAdd[i]][..0] == [];
  }

  /** The loop over `productsToAdd` that pushes each entry with an unknown key. Every
      lookup is against the stored products only. */
  method QueueNew(existing: seq<Product>, toAdd: seq<ProductSpec>) returns (queued: seq<ProductSpec>)
    ensures queued == Missing(existing, toAdd)
  {
    queued := [];
    for i := 0 to |toAdd|
      invariant queued == Missing(existing, toAdd[..i])
    {
      MissingStep(existing, toAdd, i);
      if IndexOf(existing, ProductKeyText, toAdd[i].productKey).None? {
        queued := queued + [toAdd[i]];
      }
    }
    assert toAdd[..|toAdd|] == toAdd;
  }

  /** The documents `insertMany` stores: each queued entry with its new `_id` and `createdAt`. */
  function Stamped(queued: seq<ProductSpec>, ids: seq<Id>, now: Date): (r: seq<Product>)
    requires |ids| == |queued|
    ensures |r| == |queued|
    ensures forall i :: 0 <= i < |queued| ==>
      (r[i].id == ids[i] && r[i].productName == queued[i].productName && r[i].productKey == queued[i].productKey
       && r[i].description == queued[i].description && r[i].accessUrl == queued[i].accessUrl
       && r[i].isActive == queued[i].isActive && r[i].createdAt == Some(now))
  {
    seq(|queued|, i requires 0 <= i < |queued| =>
      Product(ids[i], queued[i].productName, queued[i].productKey, queued[i].description, queued[i].accessUrl,
              queued[i].isActive, Some(now)))
  }

  /** Distinct ids, none of them stored yet: the `_id`s `insertMany` generates. */
  predicate FreshIds(existing: seq<Product>, ids: seq<Id>)
  {
    (forall i, j :: 0 <= i < j < |ids| ==> ids[i] != ids[j])
    && forall i :: 0 <= i < |ids| ==> KeyAbsent(existing, ProductKey, ids[i])
  }

  /** `seedProducts` on a list `toAdd`: exit when the URI is missing; otherwise queue the
      new entries and, when there are any, insert them all after the stored products.
      Stored products are never changed. */
  method SeedList(db: CoreDatabase, uri: string, toAdd: seq<ProductSpec>, ids: seq<Id>, now: Date) returns (outcome: SeedOutcome)
    requires db.Valid() && |ids| >= |toAdd| && FreshIds(db.products, ids)
    modifies db`products
    ensures db.Valid()
    ensures uri == "" ==> outcome == MissingUri && db.products == old(db.products)
    ensures uri != "" && Missing(old(db.products), toAdd) == [] ==>
      outcome == NothingNew && db.products == old(db.products)
    ensures uri != "" && Missing(old(db.products), toAdd) != [] ==>
      var m := Missing(old(db.products), toAdd);
      outcome == Inserted(|m|) && db.products == old(db.products) + Stamped(m, ids[..|m|], now)
  {
    if uri == "" {
      return MissingUri;
    }
    var queued := QueueNew(db.products, toAdd);
    if |queued| == 0 {
      return NothingNew;
    }
    var added := Stamped(queued, ids[..|queued|], now);
    assert UniqueKeys(added, ProductKey) by {
      forall a, b | 0 <= a < b < |added| ensures added[a].id != added[b].id {
        assert added[a].id == ids[a] && added[b].id == ids[b];
      }
    }
    UniqueAfterConcat(db.products, added, ProductKey);
    db.products := db.products + added;
    return Inserted(|queued|);
  }

  /** The script as run: `seedProducts` on its own catalogue. */
  method Seed(db: CoreDatabase, uri: string, ids: seq<Id>, now: Date) returns (outcome: SeedOutcome)
    requires db.Valid() && |ids| >= |Catalog| && FreshIds(db.products, ids)
    modifies db`products
    ensures db.Valid()
    ensures uri == "" ==> outcome == MissingUri && db.products == old(db.products)
    ensures uri != "" && Missing(old(db.products), Catalog) == [] ==>
      outcome == NothingNew && db.products == old(db.products)
    ensures uri != "" && Missing(old(db.products), Catalog) != [] ==>
      var m := Missing(old(db.products), Catalog);
      outcome == Inserted(|m|) && db.products == old(db.products) + Stamped(m, ids[..|m|], now)
  {
    outcome := SeedList(db, uri, Catalog, ids, now);
  }

  /** After a run that inserted what was missing, every entry's key is stored, so a second
      run queues nothing: the script is idempotent. */
  lemma SecondRunFindsNothing(existing: seq<Product>, toAdd: seq<ProductSpec>, ids: seq<Id>, now: Date)
    requires |ids| == |Missing(existing, toAdd)|
    ensures Missing(existing + Stamped(Missing(existing, toAdd), ids, now), toAdd) == []
  {
    var m := Missing(existing, toAdd);
    var after := existing + Stamped(m, ids, now);
    var stamped := Stamped(m, ids, now);
    forall s | s in toAdd ensures !IsNew(after, s) {
      if IsNew(existing, s) {
        assert s in m;
        var k :| 0 <= k < |m| && m[k] == s;
        assert after[|existing| + k] == stamped[k];
        assert ProductKeyText(after[|existing| + k]) == s.productKey;
      } else {
        var j :| 0 <= j < |existing| && ProductKeyText(existing[j]) == s.productKey;
        assert after[j] == existing[j];
      }
    }
    FilterNone(toAdd, (s: ProductSpec) => IsNew(after, s));
  }
}
