/**
 * The inventory ledger's rows and what `inventory_check` computes from them:
 * the online total, the per-store totals keyed by the store label as stored,
 * and the fulfillment options derived from those totals.
 */
module Inventory {
  import opened Optional
  import opened Text

  /** One ledger row: stock of one SKU and size at one store. */
  datatype InventoryRecord = InventoryRecord(sku: string, store: string, size: string, qty: nat)

  datatype FulfillmentOption = ShipToHome | ClickAndCollect

  /** The aggregation result; `stores` maps a store label to its total. */
  datatype StockReport = StockReport(online: nat, stores: map<string, nat>, options: seq<FulfillmentOption>)

  const OnlineChannel := "online"

  /** The non-physical channel, whichever way its label is capitalised. */
  predicate IsOnline(store: string)
  {
    Lower(store) == OnlineChannel
  }

  /** A supplied preferred store counts only when it is a non-empty label. */
  function PreferredKey(preferred: Option<string>): set<string>
  {
    if preferred.Some? && preferred.value != "" then {preferred.value} else {}
  }

  /** The sum of `qty` over the rows for `sku` on the online channel. */
  function OnlineStock(rows: seq<InventoryRecord>, sku: string): nat
  {
    if rows == [] then 0
    else
      var last := rows[|rows| - 1];
      OnlineStock(rows[..|rows| - 1], sku) + (if last.sku == sku && IsOnline(last.store) then last.qty else 0)
  }

  /** The sum of `qty` over the rows for `sku` at the physical store labelled exactly `store`. */
  function StoreStock(rows: seq<InventoryRecord>, sku: string, store: string): nat
  {
    if rows == [] then 0
    else
      var last := rows[|rows| - 1];
      StoreStock(rows[..|rows| - 1], sku, store)
        + (if last.sku == sku && !IsOnline(last.store) && last.store == store then last.qty else 0)
  }

  /** The labels of the physical stores that have at least one row for `sku`. */
  function StoresOf(rows: seq<InventoryRecord>, sku: string): (r: set<string>)
    ensures forall s :: s in r ==> !IsOnline(s)
  {
    set i | 0 <= i < |rows| && rows[i].sku == sku && !IsOnline(rows[i].store) :: rows[i].store
  }

  /** The options in their fixed order: ship-to-home first, then click-and-collect. */
  function OptionsFor(online: bool, inStore: bool): (r: seq<FulfillmentOption>)
    ensures ShipToHome in r <==> online
    ensures ClickAndCollect in r <==> inStore
    ensures r == [] || r == [ShipToHome] || r == [ClickAndCollect] || r == [ShipToHome, ClickAndCollect]
  {
    (if online then [ShipToHome] else []) + (if inStore then [ClickAndCollect] else [])
  }

  /** Some online row for `sku` has stock. */
  ghost predicate StockedOnline(rows: seq<InventoryRecord>, sku: string)
  {
    exists i :: 0 <= i < |rows| && rows[i].sku == sku && IsOnline(rows[i].store) && rows[i].qty > 0
  }

  /** Some physical-store row for `sku` has stock. */
  ghost predicate StockedInStore(rows: seq<InventoryRecord>, sku: string)
  {
    exists i :: 0 <= i < |rows| && rows[i].sku == sku && !IsOnline(rows[i].store) && rows[i].qty > 0
  }

  /** The online total is positive exactly when some online row for the SKU has stock. */
  lemma {:induction false} OnlineStockPositive(rows: seq<InventoryRecord>, sku: string)
    ensures OnlineStock(rows, sku) > 0 <==> StockedOnline(rows, sku)
  {
    if rows != [] {
      var init := rows[..|rows| - 1];
      OnlineStockPositive(init, sku);
      assert forall i :: 0 <= i < |init| ==> init[i] == rows[i];
      if StockedOnline(rows, sku) {
        var i :| 0 <= i < |rows| && rows[i].sku == sku && IsOnline(rows[i].store) && rows[i].qty > 0;
        if i < |init| { assert init[i] == rows[i]; }
      }
    }
  }

  /** A store total is positive exactly when some row for the SKU at that store has stock. */
  lemma {:induction false} StoreStockPositive(rows: seq<InventoryRecord>, sku: string, store: string)
    ensures StoreStock(rows, sku, store) > 0 <==>
      exists i :: 0 <= i < |rows| && rows[i].sku == sku && !IsOnline(rows[i].store) && rows[i].store == store && rows[i].qty > 0
  {
    if rows != [] {
      var init := rows[..|rows| - 1];
      StoreStockPositive(init, sku, store);
      assert forall i :: 0 <= i < |init| ==> init[i] == rows[i];
    }
  }

  /** A store outside the rows for the SKU has total 0. */
  lemma {:induction false} StoreStockOutside(rows: seq<InventoryRecord>, sku: string, store: string)
    requires store !in StoresOf(rows, sku)
    ensures StoreStock(rows, sku, store) == 0
  {
    StoreStockPositive(rows, sku, store);
  }

  /**
   * An online-channel label can be a key of the per-store totals only as the
   * preferred store, and then its store total is 0.
   */
  lemma OnlineLabelOnlyPreferred(rows: seq<InventoryRecord>, sku: string, stores: map<string, nat>, preferred: Option<string>)
    requires stores.Keys == StoresOf(rows, sku) + PreferredKey(preferred)
    requires forall s :: s in stores ==> stores[s] == StoreStock(rows, sku, s)
    ensures forall s :: s in stores && IsOnline(s) ==> s in PreferredKey(preferred) && stores[s] == 0
  {
    forall s | s in stores && IsOnline(s)
      ensures s in PreferredKey(preferred) && stores[s] == 0
    {
      StoreStockOutside(rows, sku, s);
    }
  }

  /**
   * Click-and-collect is offered when some store total is positive; that
   * happens exactly when some physical-store row for the SKU has stock.
   */
  lemma ClickAndCollectIffStocked(rows: seq<InventoryRecord>, sku: string, stores: map<string, nat>)
    requires StoresOf(rows, sku) <= stores.Keys
    requires forall s :: s in stores ==> stores[s] == StoreStock(rows, sku, s)
    ensures (exists s :: s in stores && stores[s] > 0) <==> StockedInStore(rows, sku)
  {
    if exists s :: s in stores && stores[s] > 0 {
      var s :| s in stores && stores[s] > 0;
      StoreStockPositive(rows, sku, s);
    }
    if StockedInStore(rows, sku) {
      var i :| 0 <= i < |rows| && rows[i].sku == sku && !IsOnline(rows[i].store) && rows[i].qty > 0;
      var s := rows[i].store;
      assert s in StoresOf(rows, sku);
      StoreStockPositive(rows, sku, s);
      assert stores[s] > 0;
    }
  }

  /** What the finished totals of a stock report say about the rows they were summed from. */
  lemma ReportTotals(rows: seq<InventoryRecord>, sku: string, preferred: Option<string>,
                     online: nat, stores: map<string, nat>, inStore: bool)
    requires online == OnlineStock(rows, sku)
    requires stores.Keys == StoresOf(rows, sku) + PreferredKey(preferred)
    requires forall s :: s in stores ==> stores[s] == StoreStock(rows, sku, s)
    requires inStore == exists s :: s in stores && stores[s] > 0
    ensures forall s :: s in stores && IsOnline(s) ==> s in PreferredKey(preferred) && stores[s] == 0
    ensures online > 0 <==> StockedOnline(rows, sku)
    ensures inStore <==> StockedInStore(rows, sku)
  {
    OnlineStockPositive(rows, sku);
    OnlineLabelOnlyPreferred(rows, sku, stores, preferred);
    ClickAndCollectIffStocked(rows, sku, stores);
  }

  /** `stores` holds exactly the per-store totals of the SKU over `rows`. */
  ghost predicate Tallied(rows: seq<InventoryRecord>, sku: string, stores: map<string, nat>)
  {
    && stores.Keys == StoresOf(rows, sku)
    && forall s :: s in stores ==> stores[s] == StoreStock(rows, sku, s)
  }

  /** A row that is not a physical-store row of the SKU leaves the per-store totals as they were. */
  lemma TallySkip(rows: seq<InventoryRecord>, n: nat, sku: string, stores: map<string, nat>)
    requires n < |rows| && Tallied(rows[..n], sku, stores)
    requires rows[n].sku != sku || IsOnline(rows[n].store)
    ensures Tallied(rows[..n + 1], sku, stores)
  {
    ScanOneMore(rows, n, sku);
  }

  /** A physical-store row of the SKU adds its qty to its store's entry, creating it at 0 first if missing. */
  lemma TallyAdd(rows: seq<InventoryRecord>, n: nat, sku: string, stores: map<string, nat>)
    requires n < |rows| && Tallied(rows[..n], sku, stores)
    requires rows[n].sku == sku && !IsOnline(rows[n].store)
    ensures Tallied(rows[..n + 1], sku,
      stores[rows[n].store := (if rows[n].store in stores then stores[rows[n].store] else 0) + rows[n].qty])
  {
    ScanOneMore(rows, n, sku);
    if rows[n].store !in stores {
      StoreStockOutside(rows[..n], sku, rows[n].store);
    }
  }

  /** Inserting the preferred store at 0 when it is missing keeps every entry equal to its total. */
  lemma TallyPreferred(rows: seq<InventoryRecord>, sku: string, stores: map<string, nat>, preferred: Option<string>)
    requires Tallied(rows, sku, stores)
    ensures var stores' := if preferred.Some? && preferred.value != "" && preferred.value !in stores
                           then stores[preferred.value := 0] else stores;
      && stores'.Keys == StoresOf(rows, sku) + PreferredKey(preferred)
      && (forall s :: s in stores' ==> stores'[s] == StoreStock(rows, sku, s))
  {
    if preferred.Some? && preferred.value != "" && preferred.value !in stores {
      StoreStockOutside(rows, sku, preferred.value);
    }
  }

  /** Scanning one more row changes only the totals that row belongs to. */
  lemma ScanOneMore(rows: seq<InventoryRecord>, n: nat, sku: string)
    requires n < |rows|
    ensures OnlineStock(rows[..n + 1], sku) ==
      OnlineStock(rows[..n], sku) + (if rows[n].sku == sku && IsOnline(rows[n].store) then rows[n].qty else 0)
    ensures forall s ::
      StoreStock(rows[..n + 1], sku, s) ==
      StoreStock(rows[..n], sku, s) + (if rows[n].sku == sku && !IsOnline(rows[n].store) && rows[n].store == s then rows[n].qty else 0)
    ensures StoresOf(rows[..n + 1], sku) ==
      StoresOf(rows[..n], sku) + (if rows[n].sku == sku && !IsOnline(rows[n].store) then {rows[n].store} else {})
  {
    var prefix := rows[..n + 1];
    assert prefix[..n] == rows[..n];
    assert forall i :: 0 <= i < n ==> prefix[i] == rows[..n][i];
  }
}
