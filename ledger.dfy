/**
 * The inventory ledger as the one piece of state the handlers share:
 * `Check` (`inventory_check`) reads it and `Reserve` (`fulfillment_reserve`)
 * decrements one row of it in place.
 */
module Stock {
  import opened Optional
  import opened Text
  import opened Inventory
  import opened Reservation

  const UuidDigits := 32

  class Ledger {
    var rows: seq<InventoryRecord>

    constructor (initial: seq<InventoryRecord>)
      ensures rows == initial
    {
      rows := initial;
    }

    /**
     * Aggregates the stock of `sku`: the online total, a total per physical
     * store label, the preferred store (if any) present with 0 when it had no
     * rows, and the options the totals allow. `size` is accepted and ignored:
     * stock is summed across all sizes.
     */
    method Check(sku: string, size: Option<string>, preferred: Option<string>) returns (report: StockReport)
      ensures report.online == OnlineStock(rows, sku)
      ensures report.stores.Keys == StoresOf(rows, sku) + PreferredKey(preferred)
      ensures forall s :: s in report.stores ==> report.stores[s] == StoreStock(rows, sku, s)
      ensures forall s :: s in report.stores && IsOnline(s) ==> s in PreferredKey(preferred) && report.stores[s] == 0
      ensures ShipToHome in report.options <==> StockedOnline(rows, sku)
      ensures ClickAndCollect in report.options <==> StockedInStore(rows, sku)
      ensures report.options == OptionsFor(report.online > 0, exists s :: s in report.stores && report.stores[s] > 0)
    {
      var ledger := rows;
      var online: nat := 0;
      var stores: map<string, nat> := map[];
      for i := 0 to |ledger|
        invariant online == OnlineStock(ledger[..i], sku)
        invariant Tallied(ledger[..i], sku, stores)
      {
        var row := ledger[i];
        assert OnlineStock(ledger[..i + 1], sku) ==
          OnlineStock(ledger[..i], sku) + (if row.sku == sku && IsOnline(row.store) then row.qty else 0) by {
          ScanOneMore(ledger, i, sku);
        }
        if row.sku != sku {
          TallySkip(ledger, i, sku, stores);
          continue;
        }
        if IsOnline(row.store) {
          TallySkip(ledger, i, sku, stores);
          online := online + row.qty;
        } else {
          TallyAdd(ledger, i, sku, stores);
          // setdefault(store, 0) followed by += qty
          var current := if row.store in stores then stores[row.store] else 0;
          stores := stores[row.store := current + row.qty];
        }
      }
      assert ledger[..|ledger|] == ledger;
      TallyPreferred(ledger, sku, stores, preferred);
      if preferred.Some? && preferred.value != "" && preferred.value !in stores {
        stores := stores[preferred.value := 0];
      }
      var options := [];
      if online > 0 {
        options := options + [ShipToHome];
      }
      var inStore := exists s :: s in stores && stores[s] > 0;
      if inStore {
        options := options + [ClickAndCollect];
      }
      assert options == OptionsFor(online > 0, inStore);
      ReportTotals(ledger, sku, preferred, online, stores, inStore);
      report := StockReport(online, stores, options);
    }

    /**
     * Reserves one unit for pickup: the first row for `sku` whose store equals
     * `store` up to case and that has stock loses one unit, and the caller gets
     * a code from the first six digits of `id` and an ETA two hours after `now`.
     * When no row fits, nothing changes and the outcome is a conflict carrying
     * the times one and two days after `now`. `slot` and `contact` are accepted
     * and ignored.
     */
    method Reserve(sku: string, store: string, slot: Option<string>, contact: Option<string>, now: Instant, id: seq<Nibble>)
      returns (outcome: Outcome)
      requires |id| == UuidDigits
      modifies this
      ensures rows == AfterReserve(old(rows), sku, store)
      ensures outcome.Reserved? <==> exists i :: 0 <= i < |old(rows)| && Fits(old(rows)[i], sku, store)
      ensures outcome.Reserved? ==> outcome == Reserved(PickupCode(id), now + EtaDelay)
      ensures outcome.SlotUnavailable? ==> outcome == SlotUnavailable(Alternatives(now)) && rows == old(rows)
      ensures outcome.Reserved? ==>
        exists i :: 0 <= i < |old(rows)| && FirstFit(old(rows), sku, store) == Some(i)
          && rows == old(rows)[i := old(rows)[i].(qty := old(rows)[i].qty - 1)]
    {
      var found: Option<nat> := None;
      for i := 0 to |rows|
        invariant found.None?
        invariant forall j :: 0 <= j < i ==> !Fits(rows[j], sku, store)
      {
        var r := rows[i];
        if r.sku == sku && Lower(r.store) == Lower(store) {
          if r.qty > 0 {
            found := Some(i);
            break;
          }
        }
      }
      if found.None? {
        outcome := SlotUnavailable(Alternatives(now));
        return;
      }
      var k := found.value;
      assert FirstFit(rows, sku, store) == Some(k);
      rows := rows[k := TakeOne(rows[k])];
      outcome := Reserved(PickupCode(id), now + EtaDelay);
    }
  }
}
