/**
 * The built-in records the service starts from when no data files are
 * present, and concrete scenarios over them, proved.
 */
module Fallback {
  import opened Optional
  import opened Catalog
  import opened Inventory
  import opened Reservation
  import opened Stock
  import opened Offers
  import opened Support
  import opened Text

  const Products: seq<Product> := [
    Product("SH123", "Cotton Shirt", "Casual cotton shirt", 1799, "S|M|L"),
    Product("DR234", "Party Dress", "Floral party dress", 2599, "S|M|L"),
    Product("SNK010", "Sneakers", "Comfort sneakers", 2499, "8|9|10"),
    Product("TSH001", "Graphic Tee", "Printed tee", 799, "M|L|XL"),
    Product("JKT09", "Light Jacket", "Windproof jacket", 3499, "M|L|XL")
  ]

  const Ledger0: seq<InventoryRecord> := [
    InventoryRecord("SH123", "Indiranagar", "M", 1),
    InventoryRecord("SH123", "MallX", "M", 0),
    InventoryRecord("DR234", "Indiranagar", "M", 2),
    InventoryRecord("SNK010", "Online", "9", 5)
  ]

  const Customers: seq<Customer> := [
    Customer("U100", "M", "Silver"),
    Customer("U101", "9", "Gold")
  ]

  const ReturnsPolicy := "Return policy: Items can be returned within 15 days of delivery if unused and tags intact. "
    + "Return shipping is free for orders above \U{20B9}2000; otherwise standard charges apply. "
    + "Certain categories (innerwear, final sale) are non-returnable. See in-app orders page for steps."

  /** The prefixes of the fallback ledger, unfolded one row at a time. */
  lemma LedgerPrefixes()
    ensures Ledger0[..4][..3] == Ledger0[..3] && Ledger0[..3][..2] == Ledger0[..2]
    ensures Ledger0[..2][..1] == Ledger0[..1] && Ledger0[..1][..0] == [] && Ledger0[..4] == Ledger0
  {
  }

  /** The sneakers are stocked online only: 5 units, shipping to home is the only option. */
  lemma SneakersShipOnly()
    ensures OnlineStock(Ledger0, "SNK010") == 5
    ensures StoresOf(Ledger0, "SNK010") == {}
    ensures StockedOnline(Ledger0, "SNK010") && !StockedInStore(Ledger0, "SNK010")
  {
    LedgerPrefixes();
    assert Ledger0[3].sku == "SNK010" && IsOnline(Ledger0[3].store);
    assert forall i :: 0 <= i < 3 ==> Ledger0[i].sku != "SNK010";
    assert OnlineStock(Ledger0[..1], "SNK010") == 0;
    assert OnlineStock(Ledger0[..2], "SNK010") == 0;
    assert OnlineStock(Ledger0[..3], "SNK010") == 0;
  }

  /** The shirt: one unit at Indiranagar, none at MallX, none online. */
  lemma ShirtInStoreOnly()
    ensures OnlineStock(Ledger0, "SH123") == 0
    ensures StoresOf(Ledger0, "SH123") == {"Indiranagar", "MallX"}
    ensures StoreStock(Ledger0, "SH123", "Indiranagar") == 1
    ensures StoreStock(Ledger0, "SH123", "MallX") == 0
  {
    LedgerPrefixes();
    assert !IsOnline("Indiranagar") && !IsOnline("MallX") && IsOnline("Online");
    assert Ledger0[0].store == "Indiranagar" && Ledger0[1].store == "MallX";
    assert OnlineStock(Ledger0[..1], "SH123") == 0;
    assert StoreStock(Ledger0[..1], "SH123", "Indiranagar") == 1;
    assert StoreStock(Ledger0[..1], "SH123", "MallX") == 0;
  }

  /** A SKU with no rows: nothing online and no store totals. */
  lemma UnknownSkuUnstocked()
    ensures OnlineStock(Ledger0, "NOPE") == 0
    ensures StoresOf(Ledger0, "NOPE") == {}
    ensures StoreStock(Ledger0, "NOPE", "MallX") == 0
  {
    LedgerPrefixes();
    assert forall i :: 0 <= i < 4 ==> Ledger0[i].sku != "NOPE";
    assert OnlineStock(Ledger0[..1], "NOPE") == 0 && StoreStock(Ledger0[..1], "NOPE", "MallX") == 0;
    assert OnlineStock(Ledger0[..2], "NOPE") == 0 && StoreStock(Ledger0[..2], "NOPE", "MallX") == 0;
    assert OnlineStock(Ledger0[..3], "NOPE") == 0 && StoreStock(Ledger0[..3], "NOPE", "MallX") == 0;
  }

  method ClientCheckSneakers()
  {
    var ledger := new Ledger(Ledger0);
    SneakersShipOnly();
    var sneakers := ledger.Check("SNK010", Some("9"), None);
    assert sneakers.online == 5 && sneakers.stores == map[];
    assert sneakers.options == [ShipToHome];
  }

  method ClientCheckUnknown()
  {
    var ledger := new Ledger(Ledger0);
    UnknownSkuUnstocked();
    var unknown := ledger.Check("NOPE", None, Some("MallX"));
    assert unknown.stores.Keys == {"MallX"} && unknown.stores["MallX"] == 0;
    assert unknown.online == 0 && unknown.options == [];
  }

  /** A Gold customer buying one shirt with the welcome coupon. */
  lemma GoldShirtWithCoupon()
    ensures CartTotal(Products, [CartLine("SH123", Some(1))]) == 1799
    ensures IsGold(Customers, Some("U101")) && !IsGold(Customers, Some("U100"))
    ensures Discounts(1799, true, IsWelcome(Some("WELCOME50"))) == [Discount(LoyaltyGold, 89), Discount(Coupon, 50)]
    ensures FinalPrice(1799, [Discount(LoyaltyGold, 89), Discount(Coupon, 50)]) == 1660
  {
    assert [CartLine("SH123", Some(1))][..0] == [];
    assert UnitPrice(Products, "SH123") == 1799;
    DiscountsTotal(1799, true, true);
  }

  method ClientOffers()
  {
    GoldShirtWithCoupon();
    var q := ApplyOffers(Products, Customers, Some("U101"), [CartLine("SH123", Some(1))], Some("WELCOME50"));
    assert q.baseTotal == 1799 && q.finalPrice == 1660 && q.points == 16;
    assert q.discounts == [Discount(LoyaltyGold, 89), Discount(Coupon, 50)];
  }

  /** The one shirt at Indiranagar can be reserved once, under any capitalisation of the store. */
  lemma ShirtReservedOnce()
    ensures FirstFit(Ledger0, "SH123", "INDIRANAGAR") == Some(0)
    ensures FirstFit(AfterReserve(Ledger0, "SH123", "INDIRANAGAR"), "SH123", "INDIRANAGAR") == None
  {
    assert Fits(Ledger0[0], "SH123", "INDIRANAGAR");
    var after := AfterReserve(Ledger0, "SH123", "INDIRANAGAR");
    assert after == Ledger0[0 := InventoryRecord("SH123", "Indiranagar", "M", 0)];
    assert !Fits(after[0], "SH123", "INDIRANAGAR") && after[1].sku == "SH123" && after[1].qty == 0;
    assert after[2].sku != "SH123" && after[3].sku != "SH123";
  }

  method ClientReserve(now: Instant, id: seq<Nibble>, id': seq<Nibble>)
    requires |id| == UuidDigits && |id'| == UuidDigits
  {
    ShirtReservedOnce();
    var ledger := new Ledger(Ledger0);
    var first := ledger.Reserve("SH123", "INDIRANAGAR", None, None, now, id);
    assert first.Reserved? && ledger.rows[0].qty == 0;
    var second := ledger.Reserve("SH123", "indiranagar", None, None, now, id');
    assert second.SlotUnavailable? && second.Status() == 409;
    assert second.alternatives == [now + 24 * Hour, now + 48 * Hour];
  }

  /** Without filters the whole catalog comes back, scored 90, 85, 80, 75, 70. */
  lemma UnfilteredScores()
    ensures |Recommendation(Products, NoFilters)| == 5
    ensures forall k :: 0 <= k < 5 ==> Recommendation(Products, NoFilters)[k].score == 90 - 5 * k
  {
    NoFiltersKeepEverything(Products);
  }

  /** A budget below every price leaves nothing, so the first three products come back at 50. */
  lemma TightBudgetFallsBack()
    ensures Recommendation(Products, Filters(Some(500), None, None)) ==
      [Offer(Products[0], 50), Offer(Products[1], 50), Offer(Products[2], 50)]
  {
    FallbackIsTopThree(Products, Filters(Some(500), None, None));
  }

  /** "Where is my refund?" mentions a refund once lower-cased. */
  lemma RefundQuestionIsReturns()
    ensures MentionsReturns(QueryText(Some("Where is my refund?"), None))
  {
    var s := "Where is my refund?";
    var q := QueryText(Some(s), None);
    assert q == Lower(s);
    assert forall k :: 12 <= k < 18 ==> !IsUpper(s[k]);
    assert forall k :: 12 <= k < 18 ==> q[k] == s[k];
    assert q[12..18] == s[12..18] == "refund";
    assert OccursAt(q, "refund", 12);
  }

  method ClientSupport()
  {
    RefundQuestionIsReturns();
    var a := SupportQuery(Some("Where is my refund?"), None, ReturnsPolicy);
    assert a.sourceDoc == ReturnsDoc && a.text == ReturnsPolicy;
  }
}
