/** The value object a production suggestion is reported as. */
module SuggestionDto {

  import opened Model

  /** A product, how many units of it can be made, and what they are worth. */
  datatype ProductionSuggestion = ProductionSuggestion(product: Product, quantityProducible: int, totalValue: real)

  /** The constructor: keeps the product and quantity, and prices the quantity at the unit value. */
  function NewSuggestion(product: Product, quantityProducible: int): (s: ProductionSuggestion)
    ensures s.product == product && s.quantityProducible == quantityProducible
    ensures s.totalValue == product.value * quantityProducible as real
  {
    ProductionSuggestion(product, quantityProducible, product.value * quantityProducible as real)
  }

  /** The three cases the constructor's unit tests exercise, on products with only a value set. */
  lemma TotalValueExamples()
    ensures NewSuggestion(Product(0, "", "", 10.0), 5).totalValue == 50.0
    ensures NewSuggestion(Product(0, "", "", 10.0), 0).totalValue == 0.0
    ensures NewSuggestion(Product(0, "", "", 25.5), 2).totalValue == 51.0
  {
  }
}
