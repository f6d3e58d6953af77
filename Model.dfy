/**
 * The persisted entities the production suggestion reads, as plain values.
 * Associations are held by the ids of the rows they join.
 */
module Model {

  /** A product; `value` is the unit sale value. */
  datatype Product = Product(id: int, code: string, name: string, value: real)

  /** A raw material and the quantity of it currently in stock. */
  datatype RawMaterial = RawMaterial(id: int, code: string, name: string, quantityInStock: int)

  /**
   * One bill-of-materials line: making one unit of the product with id
   * `productId` consumes `quantityNeeded` units of raw material `rawMaterialId`.
   */
  datatype ProductRawMaterial = ProductRawMaterial(productId: int, rawMaterialId: int, quantityNeeded: int)
}
