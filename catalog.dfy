/**
 * The product catalog and the recommendation filter (`recommend`): a walk
 * over the catalog in stored order that drops products over budget or
 * lacking the requested size, scores the survivors 0.90, 0.85, 0.80, ...
 * and falls back to the first three products at 0.50 when nothing survives.
 * Scores are kept in hundredths.
 */
module Catalog {
  import opened Optional
  import opened Text

  /** A catalog row; `sizes` is the raw `|`-separated size list as loaded. */
  datatype Product = Product(sku: string, title: string, desc: string, price: nat, sizes: string)

  /** The recognised filter keys; any of them may be absent. */
  datatype Filters = Filters(budgetMax: Option<int>, category: Option<string>, size: Option<string>)

  /** One recommended item; `score` is in hundredths. */
  datatype Candidate = Candidate(sku: string, title: string, price: nat, sizes: seq<string>, score: int)

  const SizeSeparator := '|'
  const FirstScore := 90
  const ScoreStep := 5
  const FallbackScore := 50
  const FallbackCount := 3

  const NoFilters := Filters(None, None, None)

  function SizesOf(p: Product): seq<string>
  {
    Split(p.sizes, SizeSeparator)
  }

  /** A budget is enforced only when present and non-zero (a zero budget is falsy). */
  predicate BudgetApplies(f: Filters)
  {
    f.budgetMax.Some? && f.budgetMax.value != 0
  }

  /** A size is enforced only when present and non-empty. */
  predicate SizeApplies(f: Filters)
  {
    f.size.Some? && f.size.value != ""
  }

  /** The product survives the budget test and the size test. */
  predicate Admits(f: Filters, p: Product)
  {
    && (BudgetApplies(f) ==> p.price <= f.budgetMax.value)
    && (SizeApplies(f) ==> f.size.value in SizesOf(p))
  }

  /** The advisory category test: the lowered category occurs in the lowered title or description. */
  predicate CategoryHit(category: string, p: Product)
  {
    Contains(Lower(p.title), category) || Contains(Lower(p.desc), category)
  }

  function Offer(p: Product, score: int): Candidate
  {
    Candidate(p.sku, p.title, p.price, SizesOf(p), score)
  }

  /** The admitted products, in catalog order. */
  function Survivors(catalog: seq<Product>, f: Filters): seq<Product>
  {
    if catalog == [] then []
    else
      var last := catalog[|catalog| - 1];
      Survivors(catalog[..|catalog| - 1], f) + (if Admits(f, last) then [last] else [])
  }

  /** The catalog positions of the admitted products, in increasing order. */
  ghost function Picks(catalog: seq<Product>, f: Filters): seq<nat>
  {
    if catalog == [] then []
    else
      var n := |catalog| - 1;
      Picks(catalog[..n], f) + (if Admits(f, catalog[n]) then [n] else [])
  }

  /** The k-th survivor (0-based) scores 90 - 5k hundredths. */
  function Ranked(ps: seq<Product>): seq<Candidate>
  {
    seq(|ps|, k requires 0 <= k < |ps| => Offer(ps[k], FirstScore - ScoreStep * k))
  }

  /** The fallback list: the first (up to) three catalog products at 50 hundredths. */
  function TopProducts(catalog: seq<Product>): seq<Candidate>
  {
    var n := if |catalog| < FallbackCount then |catalog| else FallbackCount;
    seq(n, k requires 0 <= k < n => Offer(catalog[k], FallbackScore))
  }

  /** What `recommend` returns for a catalog and a set of filters. */
  function Recommendation(catalog: seq<Product>, f: Filters): seq<Candidate>
  {
    var s := Survivors(catalog, f);
    if s == [] then TopProducts(catalog) else Ranked(s)
  }

  /**
   * The handler's loop: drop a product over budget, compute (and ignore) the
   * category test, drop a product lacking the size, score the rest by how
   * many were accepted before them; fall back when none was accepted.
   */
  method Recommend(catalog: seq<Product>, f: Filters) returns (candidates: seq<Candidate>)
    ensures candidates == Recommendation(catalog, f)
    ensures |catalog| > 0 ==> |candidates| > 0
  {
    var category := if f.category.Some? && f.category.value != "" then Some(Lower(f.category.value)) else None;
    candidates := [];
    for i := 0 to |catalog|
      invariant candidates == Ranked(Survivors(catalog[..i], f))
    {
      var p := catalog[i];
      assert catalog[..i + 1][..i] == catalog[..i];
      var sizes := SizesOf(p);
      if BudgetApplies(f) && p.price > f.budgetMax.value {
        continue;
      }
      var advisoryMiss := category.Some? && !CategoryHit(category.value, p);
      if SizeApplies(f) && f.size.value !in sizes {
        continue;
      }
      candidates := candidates + [Candidate(p.sku, p.title, p.price, sizes, FirstScore - ScoreStep * |candidates|)];
    }
    assert catalog[..|catalog|] == catalog;
    if candidates == [] {
      candidates := TopProducts(catalog);
    }
  }

  /** The survivors are exactly the admitted products, picked in increasing catalog position. */
  lemma {:induction false} SurvivorsArePicks(catalog: seq<Product>, f: Filters)
    ensures |Picks(catalog, f)| == |Survivors(catalog, f)|
    ensures forall k :: 0 <= k < |Picks(catalog, f)| ==>
      Picks(catalog, f)[k] < |catalog| && Survivors(catalog, f)[k] == catalog[Picks(catalog, f)[k]]
    ensures forall k, l :: 0 <= k < l < |Picks(catalog, f)| ==> Picks(catalog, f)[k] < Picks(catalog, f)[l]
    ensures forall j :: 0 <= j < |catalog| ==> (j in Picks(catalog, f) <==> Admits(f, catalog[j]))
  {
    if catalog != [] {
      var n := |catalog| - 1;
      var init := catalog[..n];
      SurvivorsArePicks(init, f);
      assert forall j :: 0 <= j < n ==> init[j] == catalog[j];
    }
  }

  /**
   * When something survives, the k-th candidate is the k-th admitted product
   * (in catalog order) with score 90 - 5k; it is within budget and carries
   * the requested size.
   */
  lemma RankedCandidates(catalog: seq<Product>, f: Filters)
    requires Survivors(catalog, f) != []
    ensures |Recommendation(catalog, f)| == |Picks(catalog, f)|
    ensures forall k :: 0 <= k < |Recommendation(catalog, f)| ==>
      && Picks(catalog, f)[k] < |catalog|
      && Recommendation(catalog, f)[k] == Offer(catalog[Picks(catalog, f)[k]], FirstScore - ScoreStep * k)
      && (BudgetApplies(f) ==> Recommendation(catalog, f)[k].price <= f.budgetMax.value)
      && (SizeApplies(f) ==> f.size.value in Recommendation(catalog, f)[k].sizes)
  {
    SurvivorsArePicks(catalog, f);
    var picks, s, r := Picks(catalog, f), Survivors(catalog, f), Recommendation(catalog, f);
    assert r == Ranked(s);
    forall k | 0 <= k < |r|
      ensures picks[k] < |catalog|
      ensures r[k] == Offer(catalog[picks[k]], FirstScore - ScoreStep * k)
      ensures Admits(f, catalog[picks[k]])
    {
      assert picks[k] in picks;
    }
  }

  /**
   * When nothing survives, the result is the first min(3, |catalog|) products
   * at score 50, whatever the filters; it is empty only for an empty catalog.
   */
  lemma FallbackIsTopThree(catalog: seq<Product>, f: Filters)
    requires forall j :: 0 <= j < |catalog| ==> !Admits(f, catalog[j])
    ensures |Recommendation(catalog, f)| == if |catalog| < 3 then |catalog| else 3
    ensures forall k :: 0 <= k < |Recommendation(catalog, f)| ==>
      Recommendation(catalog, f)[k] == Offer(catalog[k], FallbackScore)
  {
    SurvivorsArePicks(catalog, f);
  }

  /** The category filter never excludes anything: the result does not depend on it. */
  lemma CategoryIsAdvisory(catalog: seq<Product>, f: Filters)
    ensures Recommendation(catalog, f) == Recommendation(catalog, f.(category := None))
  {
    assert forall p :: Admits(f, p) == Admits(f.(category := None), p);
    SurvivorsIgnoreCategory(catalog, f);
  }

  lemma {:induction false} SurvivorsIgnoreCategory(catalog: seq<Product>, f: Filters)
    ensures Survivors(catalog, f) == Survivors(catalog, f.(category := None))
  {
    if catalog != [] {
      SurvivorsIgnoreCategory(catalog[..|catalog| - 1], f);
    }
  }

  /** Without filters every product survives, so the k-th product scores 90 - 5k. */
  lemma {:induction false} NoFiltersKeepEverything(catalog: seq<Product>)
    ensures Survivors(catalog, NoFilters) == catalog
    ensures catalog != [] ==>
      Recommendation(catalog, NoFilters) == seq(|catalog|, k requires 0 <= k < |catalog| => Offer(catalog[k], FirstScore - ScoreStep * k))
  {
    if catalog != [] {
      NoFiltersKeepEverything(catalog[..|catalog| - 1]);
      assert catalog[..|catalog| - 1] + [catalog[|catalog| - 1]] == catalog;
    }
  }
}
