/**
 * The offer calculator (`offers_apply`): the cart's base total from catalog
 * prices, a 5% loyalty discount for Gold customers, a flat 50 for the
 * WELCOME50 coupon, a final price floored at zero and one loyalty point per
 * 100 of final price.
 */
module Offers {
  import opened Optional
  import opened Catalog

  datatype Customer = Customer(userId: string, sizeProfile: string, loyaltyTier: string)

  /** A cart line as requested: the quantity may be missing, and is not validated. */
  datatype CartLine = CartLine(sku: string, qty: Option<int>)

  datatype DiscountKind = LoyaltyGold | Coupon
  datatype Discount = Discount(kind: DiscountKind, amount: int)

  datatype Quote = Quote(baseTotal: int, discounts: seq<Discount>, finalPrice: int, points: int)

  const GoldTier := "Gold"
  const WelcomeCoupon := "WELCOME50"
  const WelcomeAmount := 50
  const LoyaltyPercent := 5
  const PointsUnit := 100
  const DefaultQuantity := 1

  /**
   * The first element whose key is `k`, if any: the model of
   * `next((x for x in xs if key(x) == k), None)`.
   */
  function FirstMatch<T>(xs: seq<T>, key: T -> string, k: string): (r: Option<T>)
    ensures r.Some? ==> r.value in xs && key(r.value) == k
    ensures r.Some? ==> exists i :: 0 <= i < |xs| && xs[i] == r.value && forall j :: 0 <= j < i ==> key(xs[j]) != k
    ensures r.None? <==> forall j :: 0 <= j < |xs| ==> key(xs[j]) != k
  {
    if xs == [] then None
    else if key(xs[0]) == k then Some(xs[0])
    else
      var r := FirstMatch(xs[1..], key, k);
      assert r.Some? ==> exists i :: 0 <= i < |xs| && xs[i] == r.value && forall j :: 0 <= j < i ==> key(xs[j]) != k by {
        if r.Some? {
          var i :| 0 <= i < |xs[1..]| && xs[1..][i] == r.value && forall j :: 0 <= j < i ==> key(xs[1..][j]) != k;
          assert xs[i + 1] == r.value;
          assert forall j :: 0 < j < i + 1 ==> xs[j] == xs[1..][j - 1];
        }
      }
      assert r.None? ==> forall j :: 1 <= j < |xs| ==> xs[j] == xs[1..][j - 1];
      r
  }

  function SkuOf(p: Product): string { p.sku }

  function UserIdOf(c: Customer): string { c.userId }

  /** The catalog price of a SKU; an unknown SKU costs nothing. */
  function UnitPrice(catalog: seq<Product>, sku: string): nat
  {
    match FirstMatch(catalog, SkuOf, sku)
    case Some(p) => p.price
    case None => 0
  }

  function Quantity(line: CartLine): int
  {
    line.qty.GetOr(DefaultQuantity)
  }

  /** The sum over the cart of unit price times quantity. */
  function CartTotal(catalog: seq<Product>, cart: seq<CartLine>): int
  {
    if cart == [] then 0
    else
      var last := cart[|cart| - 1];
      CartTotal(catalog, cart[..|cart| - 1]) + UnitPrice(catalog, last.sku) * Quantity(last)
  }

  /**
   * Five percent of `base`, truncated toward zero: the floor of 5% for a
   * non-negative base, minus the floor of 5% of its magnitude otherwise.
   */
  function LoyaltyDiscount(base: int): (d: int)
    ensures base >= 0 ==> 0 <= d && 100 * d <= LoyaltyPercent * base < 100 * (d + 1)
    ensures base < 0 ==> d <= 0 && 100 * -d <= LoyaltyPercent * -base < 100 * (-d + 1)
  {
    if base >= 0 then base * LoyaltyPercent / 100 else -((-base) * LoyaltyPercent / 100)
  }

  /** The user id is given (and non-empty) and names a customer of the Gold tier. */
  predicate IsGold(customers: seq<Customer>, userId: Option<string>)
  {
    && userId.Some? && userId.value != ""
    && match FirstMatch(customers, UserIdOf, userId.value)
       case Some(c) => c.loyaltyTier == GoldTier
       case None => false
  }

  predicate IsWelcome(coupon: Option<string>)
  {
    coupon == Some(WelcomeCoupon)
  }

  /** The discounts that apply, loyalty first and coupon second. */
  function Discounts(base: int, gold: bool, welcome: bool): (ds: seq<Discount>)
    ensures |ds| == (if gold then 1 else 0) + (if welcome then 1 else 0)
    ensures gold ==> ds[0] == Discount(LoyaltyGold, LoyaltyDiscount(base))
    ensures welcome ==> ds[|ds| - 1] == Discount(Coupon, WelcomeAmount)
  {
    (if gold then [Discount(LoyaltyGold, LoyaltyDiscount(base))] else [])
      + (if welcome then [Discount(Coupon, WelcomeAmount)] else [])
  }

  function TotalOf(ds: seq<Discount>): int
  {
    if ds == [] then 0 else ds[0].amount + TotalOf(ds[1..])
  }

  /** The discounts add up to the loyalty amount (for Gold) plus the coupon amount (for WELCOME50). */
  lemma DiscountsTotal(base: int, gold: bool, welcome: bool)
    ensures TotalOf(Discounts(base, gold, welcome)) ==
      (if gold then LoyaltyDiscount(base) else 0) + (if welcome then WelcomeAmount else 0)
  {
    var ds := Discounts(base, gold, welcome);
    if |ds| == 2 {
      var tail := [Discount(Coupon, WelcomeAmount)];
      assert ds[1..] == tail;
      assert tail[1..] == [];
      assert TotalOf(tail) == WelcomeAmount;
      assert TotalOf(ds) == LoyaltyDiscount(base) + TotalOf(tail);
    } else if |ds| == 1 {
      assert ds[1..] == [];
    }
  }

  /** The price after discounts, never below zero. */
  function FinalPrice(base: int, ds: seq<Discount>): (p: int)
    ensures p >= 0
    ensures p >= base - TotalOf(ds)
    ensures p == 0 || p == base - TotalOf(ds)
  {
    if base - TotalOf(ds) < 0 then 0 else base - TotalOf(ds)
  }

  /**
   * The handler: total the cart, look the user up for the Gold discount,
   * add the coupon, floor the result at zero and award one point per 100.
   */
  method ApplyOffers(catalog: seq<Product>, customers: seq<Customer>, userId: Option<string>,
                     cart: seq<CartLine>, coupon: Option<string>) returns (q: Quote)
    ensures q.baseTotal == CartTotal(catalog, cart)
    ensures q.discounts == Discounts(q.baseTotal, IsGold(customers, userId), IsWelcome(coupon))
    ensures q.finalPrice == FinalPrice(q.baseTotal, q.discounts)
    ensures 0 <= q.points && q.points * PointsUnit <= q.finalPrice < (q.points + 1) * PointsUnit
  {
    var base := 0;
    for i := 0 to |cart|
      invariant base == CartTotal(catalog, cart[..i])
    {
      var line := cart[i];
      assert cart[..i + 1][..i] == cart[..i];
      var qty := line.qty.GetOr(DefaultQuantity);
      var product := FirstMatch(catalog, SkuOf, line.sku);
      var price := if product.Some? then product.value.price else 0;
      base := base + price * qty;
    }
    assert cart[..|cart|] == cart;
    var discount := 0;
    var discounts := [];
    if userId.Some? && userId.value != "" {
      var customer := FirstMatch(customers, UserIdOf, userId.value);
      if customer.Some? && customer.value.loyaltyTier == GoldTier {
        discount := LoyaltyDiscount(base);
        discounts := discounts + [Discount(LoyaltyGold, discount)];
      }
    }
    if coupon == Some(WelcomeCoupon) {
      discounts := discounts + [Discount(Coupon, WelcomeAmount)];
      discount := discount + WelcomeAmount;
    }
    assert discounts == Discounts(base, IsGold(customers, userId), IsWelcome(coupon));
    DiscountsTotal(base, IsGold(customers, userId), IsWelcome(coupon));
    var finalPrice := if base - discount < 0 then 0 else base - discount;
    q := Quote(base, discounts, finalPrice, finalPrice / PointsUnit);
  }

  lemma MulMonotone(price: nat, q: int, q': int)
    requires q <= q'
    ensures price * q <= price * q'
  {
    var d := q' - q;
    assert price * q' == price * q + price * d;
  }

  /** Raising one line's quantity never lowers the base total. */
  lemma {:induction false} CartTotalMonotone(catalog: seq<Product>, cart: seq<CartLine>, i: nat, qty: int)
    requires i < |cart| && Quantity(cart[i]) <= qty
    ensures CartTotal(catalog, cart) <= CartTotal(catalog, cart[i := cart[i].(qty := Some(qty))])
    decreases |cart|
  {
    var cart' := cart[i := cart[i].(qty := Some(qty))];
    var n := |cart| - 1;
    assert cart'[..n] == if i < n then cart[..n][i := cart[i].(qty := Some(qty))] else cart[..n];
    if i < n {
      CartTotalMonotone(catalog, cart[..n], i, qty);
    } else {
      MulMonotone(UnitPrice(catalog, cart[n].sku), Quantity(cart[n]), qty);
    }
  }

  lemma CartTotalAppend(catalog: seq<Product>, cart: seq<CartLine>, line: CartLine)
    ensures CartTotal(catalog, cart + [line]) == CartTotal(catalog, cart) + UnitPrice(catalog, line.sku) * Quantity(line)
  {
    assert (cart + [line])[..|cart|] == cart;
  }

  /** A line for a SKU the catalog does not know adds nothing to the total. */
  lemma UnknownSkuIsFree(catalog: seq<Product>, cart: seq<CartLine>, line: CartLine)
    requires forall j :: 0 <= j < |catalog| ==> catalog[j].sku != line.sku
    ensures CartTotal(catalog, cart + [line]) == CartTotal(catalog, cart)
  {
    assert UnitPrice(catalog, line.sku) == 0;
    CartTotalAppend(catalog, cart, line);
  }

  /** The price after discounts grows with the base total, for a fixed customer and coupon. */
  lemma FinalPriceMonotone(base: int, base': int, gold: bool, welcome: bool)
    requires base <= base'
    ensures FinalPrice(base, Discounts(base, gold, welcome)) <= FinalPrice(base', Discounts(base', gold, welcome))
  {
    var ds, ds' := Discounts(base, gold, welcome), Discounts(base', gold, welcome);
    var l, l' := LoyaltyDiscount(base), LoyaltyDiscount(base');
    DiscountsTotal(base, gold, welcome);
    DiscountsTotal(base', gold, welcome);
    assert l' - l <= base' - base;
  }

  /** Discounts never push the price below zero nor above the base total. */
  lemma FinalPriceBounds(base: int, gold: bool, welcome: bool)
    ensures 0 <= FinalPrice(base, Discounts(base, gold, welcome)) <= (if base < 0 then 0 else base)
  {
    DiscountsTotal(base, gold, welcome);
  }
}
