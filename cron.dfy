/** app/api/cron/sync-data/route.js: the scheduled fleet sync, a loop that runs the
    bulk import once per registered store and counts the outcomes. */
module Cron {
  import opened Wrappers
  import opened Schema
  import opened Payloads
  import opened Reconcile
  import opened Database
  import Shopify

  /** The JSON the route answers with. */
  datatype SyncSummary =
    | NoStores                                                 // "No stores found to sync"
    | Completed(totalStores: nat, successful: nat, failed: nat) // "Sync completed"
    | SyncFailed                                               // status 500, "Sync failed"

  /** The bulk imports of the listed stores, in listing order; the i-th import reads
      `clock(i)` as its `new Date()`. */
  function FleetSync(t: Tables, listed: seq<StoreRow>, feeds: Id -> Feed, clock: nat -> Instant): Tables
    decreases |listed|
  {
    if listed == [] then t
    else
      var n := |listed| - 1;
      FullImport(FleetSync(t, listed[..n], feeds, clock), listed[n].id, feeds(listed[n].id), clock(n))
  }

  /** What the route writes: nothing when listing the stores fails, otherwise one
      bulk import per store. */
  function CronEffect(t: Tables, listingFails: bool, feeds: Id -> Feed, clock: nat -> Instant): Tables {
    if listingFails then t else FleetSync(t, t.stores, feeds, clock)
  }

  /** `importShopifyData` never throws, so every store counts as a success. */
  function CronSummary(stores: seq<StoreRow>, listingFails: bool): (s: SyncSummary)
    ensures s.Completed? ==> s.successful + s.failed == s.totalStores == |stores|
    ensures s.Completed? ==> s.failed == 0
    ensures s == NoStores <==> !listingFails && |stores| == 0
    ensures s == SyncFailed <==> listingFails
  {
    if listingFails then SyncFailed
    else if |stores| == 0 then NoStores
    else Completed(|stores|, |stores|, 0)
  }

  /** `POST`: list the stores, then import each one in turn; `feeds` and `clock` stand
      for Shopify and the system clock, `listingFails` for a failing `findMany`. */
  method SyncAllStores(db: Db, listingFails: bool, feeds: Id -> Feed, clock: nat -> Instant)
    returns (summary: SyncSummary)
    requires db.Valid()
    modifies db
    ensures db.Valid()
    ensures summary == CronSummary(old(db.stores), listingFails)
    ensures db.Snapshot() == CronEffect(old(db.Snapshot()), listingFails, feeds, clock)
  {
    if listingFails {
      return SyncFailed;
    }
    var stores := db.stores;
    if |stores| == 0 {
      return NoStores;
    }
    ghost var t0 := db.Snapshot();
    var successCount, errorCount := 0, 0;
    for i := 0 to |stores|
      invariant db.Valid()
      invariant db.Snapshot() == FleetSync(t0, stores[..i], feeds, clock)
      invariant successCount == i && errorCount == 0
    {
      var store := stores[i];
      assert stores[..i + 1][..i] == stores[..i];
      Shopify.ImportShopifyData(db, store.id, feeds(store.id), clock(i));
      successCount := successCount + 1;
    }
    assert stores[..|stores|] == stores;
    summary := Completed(|stores|, successCount, errorCount);
  }

  /** No two listed stores share an internal id. */
  ghost predicate DistinctIds(stores: seq<StoreRow>) {
    forall i, j :: 0 <= i < j < |stores| ==> stores[i].id != stores[j].id
  }

  /** After the first `n` imports of a fleet sync, exactly the first `n` stores carry
      their import's timestamp and nothing else about any store has changed. */
  lemma {:induction false} FleetSyncStampsPrefix(t: Tables, feeds: Id -> Feed, clock: nat -> Instant, n: nat)
    requires n <= |t.stores| && DistinctIds(t.stores)
    ensures var r := FleetSync(t, t.stores[..n], feeds, clock);
      |r.stores| == |t.stores|
      && forall i :: 0 <= i < |t.stores| ==>
        r.stores[i] == if i < n then t.stores[i].(lastSyncedAt := Some(clock(i))) else t.stores[i]
    decreases n
  {
    if n > 0 {
      var listed := t.stores[..n];
      assert listed[..n - 1] == t.stores[..n - 1];
      FleetSyncStampsPrefix(t, feeds, clock, n - 1);
      var u := FleetSync(t, t.stores[..n - 1], feeds, clock);
      var id := t.stores[n - 1].id;
      ImportStampsOnlyItsStore(u, id, feeds(id), clock(n - 1));
      var r := FullImport(u, id, feeds(id), clock(n - 1));
      assert r == FleetSync(t, listed, feeds, clock);
      forall i | 0 <= i < |t.stores|
        ensures r.stores[i] == if i < n then t.stores[i].(lastSyncedAt := Some(clock(i))) else t.stores[i]
      {
        assert u.stores[i].id == t.stores[i].id;
        if i != n - 1 {
          assert t.stores[i].id != id;
        }
      }
    }
  }

  /** Each store is imported exactly once: after the sync every store's
      `lastSyncedAt` is the instant of its own turn in the listing, and its other
      columns are as they were. */
  lemma FleetSyncStampsEveryStore(t: Tables, feeds: Id -> Feed, clock: nat -> Instant)
    requires DistinctIds(t.stores)
    ensures var r := CronEffect(t, false, feeds, clock);
      |r.stores| == |t.stores|
      && forall i :: 0 <= i < |t.stores| ==> r.stores[i] == t.stores[i].(lastSyncedAt := Some(clock(i)))
  {
    FleetSyncStampsPrefix(t, feeds, clock, |t.stores|);
    assert t.stores[..|t.stores|] == t.stores;
  }

  lemma {:induction false} FleetSyncWellFormed(t: Tables, listed: seq<StoreRow>, feeds: Id -> Feed, clock: nat -> Instant)
    requires WellFormed(t)
    ensures WellFormed(FleetSync(t, listed, feeds, clock))
    decreases |listed|
  {
    if listed != [] {
      var n := |listed| - 1;
      FleetSyncWellFormed(t, listed[..n], feeds, clock);
      FullImportWellFormed(FleetSync(t, listed[..n], feeds, clock), listed[n].id, feeds(listed[n].id), clock(n));
    }
  }
}
