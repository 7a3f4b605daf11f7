/** The field-level rules of routes/materialRoutes.js: what create and edit write
    into a material document, and which documents the two listings select. */
module Inventory {
  import opened Schemas

  /** The request body of POST and PUT /materials; absent numbers are None,
      absent strings are "". */
  datatype MaterialBody = MaterialBody(
    name: string,
    materialType: string,
    description: Option<string>,
    quantity: Option<int>,
    unit: string,
    basePrice: Option<int>,
    location: string,
    estimatedCo2Savings: Option<int>)

  /** The schema's required paths are all given, so validation on save passes. */
  predicate Complete(b: MaterialBody) {
    && Present(b.name) && Present(b.materialType) && b.quantity.Some?
    && Present(b.unit) && b.basePrice.Some? && Present(b.location)
  }

  /** `req.body.estimatedCo2Savings || 0` (0 and absent are both falsy). */
  function Co2OrZero(e: Option<int>): int {
    match e
    case None => DefaultCo2Savings
    case Some(v) => v
  }

  /** The document `Material.create` stores: the caller is the seller and the
      listing starts active even when its quantity is 0. */
  function Created(id: MaterialId, seller: UserId, b: MaterialBody): (m: Material)
    requires Complete(b)
    ensures m.id == id && m.seller == seller && m.isActive == Some(true)
    ensures m.status == DefaultMaterialStatus
    ensures b.estimatedCo2Savings.None? ==> m.estimatedCo2Savings == 0
    ensures m.quantity == b.quantity.value && m.basePrice == b.basePrice.value
    ensures m.name == b.name && m.materialType == b.materialType && m.description == b.description
    ensures m.unit == b.unit && m.location == b.location
  {
    Material(id, seller, b.name, b.materialType, b.description, b.quantity.value, b.unit,
             b.basePrice.value, b.location, Co2OrZero(b.estimatedCo2Savings),
             DefaultMaterialStatus, Some(true))
  }

  /** `Object.assign` of the eight editable fields followed by
      `isActive = quantity > 0`: the seller, id and status are kept. */
  function Edited(m: Material, b: MaterialBody): (r: Material)
    requires Complete(b)
    ensures r.id == m.id && r.seller == m.seller && r.status == m.status
    ensures r.isActive == Some(r.quantity > 0)
    ensures r.name == b.name && r.materialType == b.materialType && r.description == b.description
    ensures r.quantity == b.quantity.value && r.unit == b.unit && r.basePrice == b.basePrice.value
    ensures r.location == b.location && r.estimatedCo2Savings == Co2OrZero(b.estimatedCo2Savings)
  {
    m.(name := b.name, materialType := b.materialType, description := b.description,
       quantity := b.quantity.value, unit := b.unit, basePrice := b.basePrice.value,
       location := b.location, estimatedCo2Savings := Co2OrZero(b.estimatedCo2Savings),
       isActive := Some(b.quantity.value > 0))
  }

  /** Editing with the same body twice gives what editing once gives. */
  lemma EditIdempotent(m: Material, b: MaterialBody)
    requires Complete(b)
    ensures Edited(Edited(m, b), b) == Edited(m, b)
  {
  }

  /** The marketplace query `{ $or: [{ isActive: true }, { isActive: { $exists: false } }] }`. */
  predicate OnMarketplace(m: Material) {
    m.isActive == Some(true) || m.isActive == None
  }

  /** A new listing is on the marketplace even with no stock; an edited one is
      there exactly while its new quantity is positive. */
  lemma ListingVisibility(id: MaterialId, seller: UserId, m: Material, b: MaterialBody)
    requires Complete(b)
    ensures OnMarketplace(Created(id, seller, b))
    ensures OnMarketplace(Edited(m, b)) <==> b.quantity.value > 0
  {
  }
}
