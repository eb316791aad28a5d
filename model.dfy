/**
 * The product entity and its three transfer shapes, as the mapper and the validator use
 * them. Every field is a nullable Java reference, hence an `Option`.
 */
module Model {
  import opened Wrappers

  /** Java `Integer` (stock). */
  newtype int32 = x: int | -0x8000_0000 <= x < 0x8000_0000

  /** Java `Long` (store-assigned identifier). */
  newtype int64 = x: int | -0x8000_0000_0000_0000 <= x < 0x8000_0000_0000_0000

  /**
   * `BigDecimal` prices. Only values are compared (`compareTo` ignores scale), so an
   * exact rational stands in for the decimal.
   */
  type Decimal = real

  /** `LocalDateTime`, only ever copied. */
  datatype DateTime = DateTime(ticks: int)

  /** Request body for creating a product: no identifier, no active flag. */
  datatype CreateProductDTO = CreateProductDTO(
    name: Option<string>,
    description: Option<string>,
    price: Option<Decimal>,
    category: Option<string>,
    stock: Option<int32>)

  /** Partial patch: an absent field means "leave unchanged". */
  datatype UpdateProductDTO = UpdateProductDTO(
    name: Option<string>,
    description: Option<string>,
    price: Option<Decimal>,
    category: Option<string>,
    stock: Option<int32>)

  /** Read view: every field of the entity. */
  datatype ProductDTO = ProductDTO(
    id: Option<int64>,
    name: Option<string>,
    description: Option<string>,
    price: Option<Decimal>,
    category: Option<string>,
    stock: Option<int32>,
    active: Option<bool>,
    createdAt: Option<DateTime>,
    updatedAt: Option<DateTime>)

  /** The value held by a `Product` object at one moment. */
  datatype ProductState = ProductState(
    id: Option<int64>,
    name: Option<string>,
    description: Option<string>,
    price: Option<Decimal>,
    category: Option<string>,
    stock: Option<int32>,
    active: Option<bool>,
    createdAt: Option<DateTime>,
    updatedAt: Option<DateTime>)

  /** An update DTO that carries no field at all. */
  const EmptyUpdate := UpdateProductDTO(None, None, None, None, None)

  /** The persisted entity, updated in place through its setters. */
  class Product {
    var id: Option<int64>
    var name: Option<string>
    var description: Option<string>
    var price: Option<Decimal>
    var category: Option<string>
    var stock: Option<int32>
    var active: Option<bool>
    var createdAt: Option<DateTime>
    var updatedAt: Option<DateTime>

    /** `new Product()`: every field starts out null. */
    constructor ()
      ensures Snapshot() == ProductState(None, None, None, None, None, None, None, None, None)
    {
      id, name, description, price, category := None, None, None, None, None;
      stock, active, createdAt, updatedAt := None, None, None, None;
    }

    /** The entity's current value. */
    function Snapshot(): ProductState
      reads this
    {
      ProductState(id, name, description, price, category, stock, active, createdAt, updatedAt)
    }
  }
}
