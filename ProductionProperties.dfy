/**
 * What the production suggestion promises, proved about the functions of
 * module Production: the quantity is the largest stock-feasible one, only
 * makeable products are suggested, each input product at most once, and the
 * ranking is a stable descending sort by total value.
 */
module ProductionProperties {

  import opened Wrappers
  import opened Model
  import opened SuggestionDto
  import opened Ranking
  import opened Production

  /** Some entry has a positive need, i.e. limits production at all. */
  predicate HasPositiveNeed(entries: seq<ProductRawMaterial>)
  {
    exists i :: 0 <= i < |entries| && entries[i].quantityNeeded > 0
  }

  /** Making `n` units takes no more of any material than is in stock. */
  predicate Feasible(entries: seq<ProductRawMaterial>, stock: map<int, int>, n: int)
  {
    forall i :: 0 <= i < |entries| && entries[i].quantityNeeded > 0 ==>
      n * entries[i].quantityNeeded <= StockOf(stock, entries[i].rawMaterialId)
  }

  /** The entries whose need is positive, in order. */
  function PositiveNeeds(entries: seq<ProductRawMaterial>): seq<ProductRawMaterial>
  {
    if entries == [] then []
    else
      var last := entries[|entries| - 1];
      PositiveNeeds(entries[..|entries| - 1]) + (if last.quantityNeeded > 0 then [last] else [])
  }

  // ---------------------------------------------------------------------------
  // One entry

  lemma MulMonotone(x: int, y: int, b: int)
    requires x <= y && b > 0
    ensures x * b <= y * b
  {
    assert y * b - x * b == (y - x) * b;
  }

  /** One unit more than an entry's quotient needs more of its material than is in stock. */
  lemma QuotientExceeded(e: ProductRawMaterial, stock: map<int, int>)
    requires e.quantityNeeded > 0
    ensures (Quotient(e, stock) + 1) * e.quantityNeeded > StockOf(stock, e.rawMaterialId)
  {
    var b, q := e.quantityNeeded, Quotient(e, stock);
    assert (q + 1) * b == q * b + b;
  }

  /** Any positive unit count up to an entry's quotient fits its material's stock. */
  lemma QuotientFits(e: ProductRawMaterial, stock: map<int, int>, n: int)
    requires e.quantityNeeded > 0
    requires 1 <= n <= Quotient(e, stock)
    ensures n * e.quantityNeeded <= StockOf(stock, e.rawMaterialId)
  {
    var a, b, q := StockOf(stock, e.rawMaterialId), e.quantityNeeded, Quotient(e, stock);
    if a < 0 {
      MulMonotone(0, q - 1, b);
      assert false;
    }
    MulMonotone(n, q, b);
  }

  /** A unit count that fits an entry's material stock is at most its quotient. */
  lemma FitsAtMostQuotient(e: ProductRawMaterial, stock: map<int, int>, n: int)
    requires e.quantityNeeded > 0
    requires 0 <= n && n * e.quantityNeeded <= StockOf(stock, e.rawMaterialId)
    ensures n <= Quotient(e, stock)
  {
    var b, q := e.quantityNeeded, Quotient(e, stock);
    QuotientExceeded(e, stock);
    if n > q {
      MulMonotone(q + 1, n, b);
    }
  }

  // ---------------------------------------------------------------------------
  // One product: MaxUnits

  /** A maximum exists exactly when some entry has positive need. */
  lemma {:induction false} MaxUnitsDefinedIff(entries: seq<ProductRawMaterial>, stock: map<int, int>)
    ensures MaxUnits(entries, stock).Some? <==> HasPositiveNeed(entries)
  {
    if entries != [] {
      var init := entries[..|entries| - 1];
      MaxUnitsDefinedIff(init, stock);
      if HasPositiveNeed(init) {
        var i :| 0 <= i < |init| && init[i].quantityNeeded > 0;
        assert entries[i] == init[i];
      }
      if HasPositiveNeed(entries) {
        var i :| 0 <= i < |entries| && entries[i].quantityNeeded > 0;
        if i < |init| {
          assert init[i] == entries[i];
        }
      }
    }
  }

  lemma {:induction false} MaxUnitsLowerBound(entries: seq<ProductRawMaterial>, stock: map<int, int>, i: nat)
    requires MaxUnits(entries, stock).Some?
    requires i < |entries| && entries[i].quantityNeeded > 0
    ensures MaxUnits(entries, stock).value <= Quotient(entries[i], stock)
  {
    var init := entries[..|entries| - 1];
    if i < |init| {
      assert init[i] == entries[i];
      MaxUnitsDefinedIff(init, stock);
      MaxUnitsLowerBound(init, stock, i);
    }
  }

  lemma {:induction false} MaxUnitsAttained(entries: seq<ProductRawMaterial>, stock: map<int, int>) returns (i: nat)
    requires MaxUnits(entries, stock).Some?
    ensures i < |entries| && entries[i].quantityNeeded > 0
    ensures Quotient(entries[i], stock) == MaxUnits(entries, stock).value
  {
    var init, e := entries[..|entries| - 1], entries[|entries| - 1];
    var rest := MaxUnits(init, stock);
    if e.quantityNeeded > 0 && (rest.None? || Quotient(e, stock) <= rest.value) {
      i := |entries| - 1;
    } else {
      i := MaxUnitsAttained(init, stock);
      assert init[i] == entries[i];
    }
  }

  /** The maximum is the least per-entry quotient over the entries with positive need, and one of them attains it. */
  lemma MaxUnitsIsLeastQuotient(entries: seq<ProductRawMaterial>, stock: map<int, int>)
    requires MaxUnits(entries, stock).Some?
    ensures var m := MaxUnits(entries, stock).value;
      && (forall i :: 0 <= i < |entries| && entries[i].quantityNeeded > 0 ==> m <= Quotient(entries[i], stock))
      && (exists i :: 0 <= i < |entries| && entries[i].quantityNeeded > 0 && Quotient(entries[i], stock) == m)
  {
    forall i | 0 <= i < |entries| && entries[i].quantityNeeded > 0
      ensures MaxUnits(entries, stock).value <= Quotient(entries[i], stock)
    {
      MaxUnitsLowerBound(entries, stock, i);
    }
    var i := MaxUnitsAttained(entries, stock);
  }

  /** Feasibility: a maximum of at least one unit takes no more of any material than is in stock. */
  lemma MaxUnitsFeasible(entries: seq<ProductRawMaterial>, stock: map<int, int>)
    requires MaxUnits(entries, stock).Some? && MaxUnits(entries, stock).value >= 1
    ensures Feasible(entries, stock, MaxUnits(entries, stock).value)
  {
    var m := MaxUnits(entries, stock).value;
    MaxUnitsIsLeastQuotient(entries, stock);
    forall i | 0 <= i < |entries| && entries[i].quantityNeeded > 0
      ensures m * entries[i].quantityNeeded <= StockOf(stock, entries[i].rawMaterialId)
    {
      MaxUnitsLowerBound(entries, stock, i);
      QuotientFits(entries[i], stock, m);
    }
  }

  /** Maximality: one more unit than the maximum would exceed the stock of some material. */
  lemma MaxUnitsMaximal(entries: seq<ProductRawMaterial>, stock: map<int, int>)
    requires MaxUnits(entries, stock).Some?
    ensures !Feasible(entries, stock, MaxUnits(entries, stock).value + 1)
  {
    var i := MaxUnitsAttained(entries, stock);
    QuotientExceeded(entries[i], stock);
  }

  /** Every feasible unit count is at most the maximum. */
  lemma FeasibleAtMostMaxUnits(entries: seq<ProductRawMaterial>, stock: map<int, int>, n: int)
    requires 0 <= n && HasPositiveNeed(entries) && Feasible(entries, stock, n)
    ensures MaxUnits(entries, stock).Some? && n <= MaxUnits(entries, stock).value
  {
    MaxUnitsDefinedIff(entries, stock);
    var i := MaxUnitsAttained(entries, stock);
    FitsAtMostQuotient(entries[i], stock, n);
  }

  /**
   * For a product with a limiting entry, a positive unit count fits the stock
   * exactly when it is at most the maximum.
   */
  lemma FeasibleIffAtMostMaxUnits(entries: seq<ProductRawMaterial>, stock: map<int, int>, n: int)
    requires HasPositiveNeed(entries) && n >= 1
    ensures MaxUnits(entries, stock).Some?
    ensures Feasible(entries, stock, n) <==> n <= MaxUnits(entries, stock).value
  {
    MaxUnitsDefinedIff(entries, stock);
    if Feasible(entries, stock, n) {
      FeasibleAtMostMaxUnits(entries, stock, n);
    }
    if n <= MaxUnits(entries, stock).value {
      forall i | 0 <= i < |entries| && entries[i].quantityNeeded > 0
        ensures n * entries[i].quantityNeeded <= StockOf(stock, entries[i].rawMaterialId)
      {
        MaxUnitsLowerBound(entries, stock, i);
        QuotientFits(entries[i], stock, n);
      }
    }
  }

  /** Dropping the entries whose need is zero or negative leaves the maximum as it was. */
  lemma {:induction false} MaxUnitsIgnoresNonPositive(entries: seq<ProductRawMaterial>, stock: map<int, int>)
    ensures MaxUnits(PositiveNeeds(entries), stock) == MaxUnits(entries, stock)
  {
    if entries != [] {
      var init, e := entries[..|entries| - 1], entries[|entries| - 1];
      MaxUnitsIgnoresNonPositive(init, stock);
      if e.quantityNeeded > 0 {
        var p := PositiveNeeds(init) + [e];
        assert p[..|p| - 1] == PositiveNeeds(init);
      } else {
        assert PositiveNeeds(entries) == PositiveNeeds(init) + [];
        assert PositiveNeeds(init) + [] == PositiveNeeds(init);
      }
    }
  }

  lemma {:induction false} PositiveNeedsOfEntries(productRawMaterials: seq<ProductRawMaterial>, productId: int)
    ensures EntriesOf(PositiveNeeds(productRawMaterials), productId) == PositiveNeeds(EntriesOf(productRawMaterials, productId))
  {
    var prms := productRawMaterials;
    if prms != [] {
      var init, e := prms[..|prms| - 1], prms[|prms| - 1];
      PositiveNeedsOfEntries(init, productId);
      var p := PositiveNeeds(init) + (if e.quantityNeeded > 0 then [e] else []);
      var f := EntriesOf(init, productId) + (if e.productId == productId then [e] else []);
      if e.quantityNeeded > 0 {
        assert p[..|p| - 1] == PositiveNeeds(init);
      } else {
        assert p == PositiveNeeds(init);
      }
      if e.productId == productId {
        assert f[..|f| - 1] == EntriesOf(init, productId);
      } else {
        assert f == EntriesOf(init, productId);
      }
    }
  }

  /** An entry is in a product's list exactly when it is an input entry for that product id. */
  lemma {:induction false} EntriesOfMember(productRawMaterials: seq<ProductRawMaterial>, productId: int, e: ProductRawMaterial)
    ensures e in EntriesOf(productRawMaterials, productId) <==> e in productRawMaterials && e.productId == productId
  {
    var prms := productRawMaterials;
    if prms != [] {
      var init, last := prms[..|prms| - 1], prms[|prms| - 1];
      EntriesOfMember(init, productId, e);
      assert prms == init + [last];
    }
  }

  // ---------------------------------------------------------------------------
  // The stock map

  /** A raw-material id is in the stock map exactly when some raw material has it. */
  lemma {:induction false} StockMapKeys(rawMaterials: seq<RawMaterial>, id: int)
    ensures id in StockMap(rawMaterials) <==> exists i :: 0 <= i < |rawMaterials| && rawMaterials[i].id == id
  {
    if rawMaterials != [] {
      var init, last := rawMaterials[..|rawMaterials| - 1], rawMaterials[|rawMaterials| - 1];
      StockMapKeys(init, id);
      if exists i :: 0 <= i < |init| && init[i].id == id {
        var i :| 0 <= i < |init| && init[i].id == id;
        assert rawMaterials[i] == init[i];
      }
      if exists i :: 0 <= i < |rawMaterials| && rawMaterials[i].id == id {
        var i :| 0 <= i < |rawMaterials| && rawMaterials[i].id == id;
        if i < |init| {
          assert init[i] == rawMaterials[i];
        }
      }
    }
  }

  /** A raw-material id in the stock map maps to the stock of the last raw material with that id. */
  lemma {:induction false} StockMapLastWins(rawMaterials: seq<RawMaterial>, id: int) returns (i: nat)
    requires id in StockMap(rawMaterials)
    ensures i < |rawMaterials| && rawMaterials[i].id == id
    ensures StockMap(rawMaterials)[id] == rawMaterials[i].quantityInStock
    ensures forall j :: i < j < |rawMaterials| ==> rawMaterials[j].id != id
  {
    var init, last := rawMaterials[..|rawMaterials| - 1], rawMaterials[|rawMaterials| - 1];
    if last.id == id {
      i := |rawMaterials| - 1;
    } else {
      i := StockMapLastWins(init, id);
      assert rawMaterials[i] == init[i];
    }
  }

  // ---------------------------------------------------------------------------
  // The candidate list

  lemma {:induction false} CollectAppend(ps: seq<Product>, qs: seq<Product>, pick: Product -> Option<ProductionSuggestion>)
    ensures Collect(ps + qs, pick) == Collect(ps, pick) + Collect(qs, pick)
  {
    if qs == [] {
      assert ps + qs == ps;
    } else {
      var init, last := qs[..|qs| - 1], qs[|qs| - 1];
      CollectAppend(ps, init, pick);
      assert (ps + qs)[..|ps + qs| - 1] == ps + init;
      assert (ps + qs)[|ps + qs| - 1] == last;
      assert Collect(ps + qs, pick) == Collect(ps + init, pick) + ToSeq(pick(last));
    }
  }

  /** Products are judged independently: no product consumes stock another one sees. */
  lemma CandidatesAppend(ps: seq<Product>, qs: seq<Product>, stock: map<int, int>, productRawMaterials: seq<ProductRawMaterial>)
    ensures Candidates(ps + qs, stock, productRawMaterials)
         == Candidates(ps, stock, productRawMaterials) + Candidates(qs, stock, productRawMaterials)
  {
    CollectAppend(ps, qs, p => Candidate(p, stock, productRawMaterials));
  }

  lemma {:induction false} CollectMember(ps: seq<Product>, pick: Product -> Option<ProductionSuggestion>, s: ProductionSuggestion)
    ensures s in Collect(ps, pick) <==> exists k :: 0 <= k < |ps| && pick(ps[k]) == Some(s)
  {
    if ps != [] {
      var init := ps[..|ps| - 1];
      CollectMember(init, pick, s);
      if exists k :: 0 <= k < |init| && pick(init[k]) == Some(s) {
        var k :| 0 <= k < |init| && pick(init[k]) == Some(s);
        assert ps[k] == init[k];
      }
      if exists k :: 0 <= k < |ps| && pick(ps[k]) == Some(s) {
        var k :| 0 <= k < |ps| && pick(ps[k]) == Some(s);
        if k < |init| {
          assert init[k] == ps[k];
        }
      }
    }
  }

  lemma CandidatesMember(ps: seq<Product>, stock: map<int, int>, productRawMaterials: seq<ProductRawMaterial>, s: ProductionSuggestion)
    ensures s in Candidates(ps, stock, productRawMaterials)
        <==> exists k :: 0 <= k < |ps| && Candidate(ps[k], stock, productRawMaterials) == Some(s)
  {
    var pick := p => Candidate(p, stock, productRawMaterials);
    CollectMember(ps, pick, s);
    if exists k :: 0 <= k < |ps| && pick(ps[k]) == Some(s) {
      var k :| 0 <= k < |ps| && pick(ps[k]) == Some(s);
      assert Candidate(ps[k], stock, productRawMaterials) == Some(s);
    }
    if exists k :: 0 <= k < |ps| && Candidate(ps[k], stock, productRawMaterials) == Some(s) {
      var k :| 0 <= k < |ps| && Candidate(ps[k], stock, productRawMaterials) == Some(s);
      assert pick(ps[k]) == Some(s);
    }
  }

  /** When every pick is for its own product, a suggestion is collected at most as often as its product is listed. */
  lemma {:induction false} CollectCount(ps: seq<Product>, pick: Product -> Option<ProductionSuggestion>, s: ProductionSuggestion)
    requires forall p :: pick(p).Some? ==> pick(p).value.product == p
    ensures multiset(Collect(ps, pick))[s] <= multiset(ps)[s.product]
  {
    if ps != [] {
      var init, last := ps[..|ps| - 1], ps[|ps| - 1];
      CollectCount(init, pick, s);
      assert ps == init + [last];
      assert multiset(ps)[s.product] == multiset(init)[s.product] + multiset([last])[s.product];
      assert multiset(ToSeq(pick(last)))[s] <= multiset([last])[s.product];
    }
  }

  lemma CandidateCount(ps: seq<Product>, stock: map<int, int>, productRawMaterials: seq<ProductRawMaterial>, s: ProductionSuggestion)
    ensures multiset(Candidates(ps, stock, productRawMaterials))[s] <= multiset(ps)[s.product]
  {
    CollectCount(ps, p => Candidate(p, stock, productRawMaterials), s);
  }

  lemma {:induction false} CollectSamePick(ps: seq<Product>, pick: Product -> Option<ProductionSuggestion>, pick': Product -> Option<ProductionSuggestion>)
    requires forall p :: pick(p) == pick'(p)
    ensures Collect(ps, pick) == Collect(ps, pick')
  {
    if ps != [] {
      CollectSamePick(ps[..|ps| - 1], pick, pick');
    }
  }

  // ---------------------------------------------------------------------------
  // The endpoint's answer

  /**
   * Each suggestion is for an input product, of at least one unit, priced by
   * the constructor, and its quantity is the product's maximum.
   */
  lemma SuggestionIsCandidate(products: seq<Product>, stock: map<int, int>, productRawMaterials: seq<ProductRawMaterial>, s: ProductionSuggestion)
    requires s in SortByValue(Candidates(products, stock, productRawMaterials))
    ensures s.product in products
    ensures s == NewSuggestion(s.product, s.quantityProducible)
    ensures MaxUnits(EntriesOf(productRawMaterials, s.product.id), stock) == Some(s.quantityProducible)
    ensures s.quantityProducible >= 1
  {
    var c := Candidates(products, stock, productRawMaterials);
    SortByValuePermutes(c);
    assert s in multiset(SortByValue(c));
    CandidatesMember(products, stock, productRawMaterials, s);
    var k :| 0 <= k < |products| && Candidate(products[k], stock, productRawMaterials) == Some(s);
    assert s.product == products[k];
  }

  /**
   * The quantity of every suggestion is the largest the stock allows: it
   * fits the stock of every material its product needs, and one unit more does not.
   */
  lemma SuggestionIsMaximalAndFeasible(products: seq<Product>, rawMaterials: seq<RawMaterial>, productRawMaterials: seq<ProductRawMaterial>, s: ProductionSuggestion)
    requires s in SuggestedProduction(products, rawMaterials, productRawMaterials)
    ensures Feasible(EntriesOf(productRawMaterials, s.product.id), StockMap(rawMaterials), s.quantityProducible)
    ensures !Feasible(EntriesOf(productRawMaterials, s.product.id), StockMap(rawMaterials), s.quantityProducible + 1)
  {
    var stock := StockMap(rawMaterials);
    SuggestionIsCandidate(products, stock, productRawMaterials, s);
    var entries := EntriesOf(productRawMaterials, s.product.id);
    MaxUnitsFeasible(entries, stock);
    MaxUnitsMaximal(entries, stock);
  }

  /**
   * A product is suggested exactly when it is an input product, some entry of
   * it has positive need, and the stock suffices for one unit.
   */
  lemma SuggestedIff(products: seq<Product>, rawMaterials: seq<RawMaterial>, productRawMaterials: seq<ProductRawMaterial>, p: Product)
    ensures (exists s :: s in SuggestedProduction(products, rawMaterials, productRawMaterials) && s.product == p)
        <==> && p in products
             && HasPositiveNeed(EntriesOf(productRawMaterials, p.id))
             && Feasible(EntriesOf(productRawMaterials, p.id), StockMap(rawMaterials), 1)
  {
    var stock := StockMap(rawMaterials);
    var entries := EntriesOf(productRawMaterials, p.id);
    var c := Candidates(products, stock, productRawMaterials);
    var r := SortByValue(c);
    SortByValuePermutes(c);
    MaxUnitsDefinedIff(entries, stock);
    if HasPositiveNeed(entries) {
      FeasibleIffAtMostMaxUnits(entries, stock, 1);
    }
    if exists s :: s in r && s.product == p {
      var s :| s in r && s.product == p;
      assert s in multiset(r);
      CandidatesMember(products, stock, productRawMaterials, s);
    }
    if p in products && HasPositiveNeed(entries) && Feasible(entries, stock, 1) {
      var k :| 0 <= k < |products| && products[k] == p;
      var s := Candidate(p, stock, productRawMaterials).value;
      CandidatesMember(products, stock, productRawMaterials, s);
      assert s in multiset(c);
      assert s in r;
    }
  }

  /** A product without entries, or whose entries all have need zero or less, is never suggested. */
  lemma NoPositiveNeedNeverSuggested(products: seq<Product>, rawMaterials: seq<RawMaterial>, productRawMaterials: seq<ProductRawMaterial>, p: Product)
    requires !HasPositiveNeed(EntriesOf(productRawMaterials, p.id))
    ensures forall s :: s in SuggestedProduction(products, rawMaterials, productRawMaterials) ==> s.product != p
  {
    SuggestedIff(products, rawMaterials, productRawMaterials, p);
  }

  /**
   * The answer is the candidate list sorted by total value, highest first:
   * non-increasing, a permutation of the candidates, and stable, so equal
   * values keep product order.
   */
  lemma SuggestionsRanked(products: seq<Product>, rawMaterials: seq<RawMaterial>, productRawMaterials: seq<ProductRawMaterial>)
    ensures var r, c := SuggestedProduction(products, rawMaterials, productRawMaterials),
                        Candidates(products, StockMap(rawMaterials), productRawMaterials);
      && SortedByValueDesc(r)
      && multiset(r) == multiset(c)
      && forall v :: WithValue(r, v) == WithValue(c, v)
  {
    var c := Candidates(products, StockMap(rawMaterials), productRawMaterials);
    SortByValueSorted(c);
    SortByValuePermutes(c);
    forall v
      ensures WithValue(SortByValue(c), v) == WithValue(c, v)
    {
      SortByValueStable(c, v);
    }
  }

  /**
   * Each input product is suggested at most as often as it is listed, and
   * always with the same suggestion; so a product listed once is suggested at
   * most once.
   */
  lemma ProductsAtMostOnce(products: seq<Product>, rawMaterials: seq<RawMaterial>, productRawMaterials: seq<ProductRawMaterial>)
    ensures var r := SuggestedProduction(products, rawMaterials, productRawMaterials);
      && (forall s :: s in r ==> multiset(r)[s] <= multiset(products)[s.product])
      && (forall s, t :: s in r && t in r && s.product == t.product ==> s == t)
  {
    var stock := StockMap(rawMaterials);
    var c := Candidates(products, stock, productRawMaterials);
    SortByValuePermutes(c);
    forall s | s in SortByValue(c)
      ensures multiset(SortByValue(c))[s] <= multiset(products)[s.product]
    {
      CandidateCount(products, stock, productRawMaterials, s);
    }
    forall s, t | s in SortByValue(c) && t in SortByValue(c) && s.product == t.product
      ensures s == t
    {
      SuggestionIsCandidate(products, stock, productRawMaterials, s);
      SuggestionIsCandidate(products, stock, productRawMaterials, t);
    }
  }

  lemma CandidateIgnoresNonPositive(p: Product, stock: map<int, int>, productRawMaterials: seq<ProductRawMaterial>)
    ensures Candidate(p, stock, PositiveNeeds(productRawMaterials)) == Candidate(p, stock, productRawMaterials)
  {
    PositiveNeedsOfEntries(productRawMaterials, p.id);
    MaxUnitsIgnoresNonPositive(EntriesOf(productRawMaterials, p.id), stock);
  }

  lemma CandidatesIgnoreNonPositive(ps: seq<Product>, stock: map<int, int>, productRawMaterials: seq<ProductRawMaterial>)
    ensures Candidates(ps, stock, PositiveNeeds(productRawMaterials)) == Candidates(ps, stock, productRawMaterials)
  {
    forall p
      ensures Candidate(p, stock, PositiveNeeds(productRawMaterials)) == Candidate(p, stock, productRawMaterials)
    {
      CandidateIgnoresNonPositive(p, stock, productRawMaterials);
    }
    CollectSamePick(ps, p => Candidate(p, stock, PositiveNeeds(productRawMaterials)), p => Candidate(p, stock, productRawMaterials));
  }

  /** Removing every entry whose need is zero or less changes nothing in the answer. */
  lemma NonPositiveEntriesIrrelevant(products: seq<Product>, rawMaterials: seq<RawMaterial>, productRawMaterials: seq<ProductRawMaterial>)
    ensures SuggestedProduction(products, rawMaterials, PositiveNeeds(productRawMaterials))
         == SuggestedProduction(products, rawMaterials, productRawMaterials)
  {
    CandidatesIgnoreNonPositive(products, StockMap(rawMaterials), productRawMaterials);
  }
}
