/**
 * The running minimum as the endpoint writes it: an int that starts at
 * Integer.MAX_VALUE, with "still MAX_VALUE" read as "no entry limited the
 * product". A product whose true maximum is exactly Integer.MAX_VALUE is then
 * taken for an unlimited one and dropped. Production.MaxUnits and
 * Production.Candidate use an Option instead and keep it.
 */
module SentinelMinimum {

  import opened Wrappers
  import opened Model
  import opened SuggestionDto
  import opened Production

  /** Java's Integer.MAX_VALUE. */
  const IntMax: int := 0x7fff_ffff

  /** The accumulator as written: the least quotient, starting from IntMax. */
  function SentinelUnits(entries: seq<ProductRawMaterial>, stock: map<int, int>): int
  {
    if entries == [] then IntMax
    else
      var rest := SentinelUnits(entries[..|entries| - 1], stock);
      var e := entries[|entries| - 1];
      if e.quantityNeeded > 0 then Min(rest, Quotient(e, stock)) else rest
  }

  /** The endpoint's test as written: entries exist, the minimum is positive and not the start value. */
  predicate SuggestedAsWritten(entries: seq<ProductRawMaterial>, stock: map<int, int>)
  {
    entries != [] && SentinelUnits(entries, stock) > 0 && SentinelUnits(entries, stock) != IntMax
  }

  /** The sentinel accumulator is the Option maximum capped at IntMax, with None read as IntMax. */
  lemma {:induction false} SentinelUnitsIsCappedMaxUnits(entries: seq<ProductRawMaterial>, stock: map<int, int>)
    ensures SentinelUnits(entries, stock)
         == match MaxUnits(entries, stock) case None => IntMax case Some(m) => Min(m, IntMax)
  {
    if entries != [] {
      SentinelUnitsIsCappedMaxUnits(entries[..|entries| - 1], stock);
    }
  }

  /** Below IntMax the sentinel test decides exactly as the Option-based one. */
  lemma AsWrittenAgreesBelowIntMax(entries: seq<ProductRawMaterial>, stock: map<int, int>)
    requires MaxUnits(entries, stock).Some? ==> MaxUnits(entries, stock).value < IntMax
    ensures SuggestedAsWritten(entries, stock)
        <==> MaxUnits(entries, stock).Some? && MaxUnits(entries, stock).value > 0
  {
    SentinelUnitsIsCappedMaxUnits(entries, stock);
  }

  /**
   * The discrepancy: one entry needing one unit of a material whose stock is
   * Integer.MAX_VALUE allows Integer.MAX_VALUE units, yet the test as written
   * drops the product; the corrected candidate keeps it.
   */
  lemma AsWrittenDropsFullStock(product: Product)
    ensures var entries, stock := [ProductRawMaterial(product.id, 1, 1)], map[1 := IntMax];
      && !SuggestedAsWritten(entries, stock)
      && MaxUnits(entries, stock) == Some(IntMax)
      && Candidate(product, stock, entries) == Some(NewSuggestion(product, IntMax))
  {
    var entries, stock := [ProductRawMaterial(product.id, 1, 1)], map[1 := IntMax];
    assert entries[..0] == [];
    assert Quotient(entries[0], stock) == IntMax;
    assert SentinelUnits(entries, stock) == IntMax;
    assert EntriesOf(entries, product.id) == entries;
  }
}
