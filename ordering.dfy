/** The field-level rules of routes/orderRoutes.js: the availability and stock
    guards of order creation, the stock update, and the legacy status strings the
    seller may set. */
module Ordering {
  import opened Schemas
  import Inventory

  /** `!material || material.isActive === false`, negated. */
  predicate Available(m: Material) {
    m.isActive != Some(false)
  }

  /** `material.quantity < quantity`; an absent quantity compares false. */
  predicate Short(m: Material, quantity: Option<int>) {
    quantity.Some? && m.quantity < quantity.value
  }

  /** The order guard and the marketplace query agree: a material can be
      ordered exactly when it is listed. */
  lemma AvailableIsListed(m: Material)
    ensures Available(m) <==> Inventory.OnMarketplace(m)
  {
    if m.isActive.Some? {
      if m.isActive.value {
        assert m.isActive == Some(true);
      } else {
        assert m.isActive == Some(false);
      }
    }
  }

  /** The stock guard refuses exactly a quantity above the stock; an absent
      quantity passes it (and then fails the schema). */
  lemma StockGuard(m: Material, q: int)
    ensures Short(m, Some(q)) <==> q > m.quantity
    ensures !Short(m, None)
  {
  }

  /** What `Order.create` still needs once the stock guard has passed: the
      populated seller (read through `material.seller._id`), a quantity for the
      required path, and a logistics mode the enum accepts. Failing any of them
      throws before anything is written. */
  predicate Placeable(users: map<UserId, User>, m: Material, quantity: Option<int>,
                      logisticsMode: Option<string>) {
    m.seller in users && quantity.Some? && ParseLogistics(logisticsMode).Some?
  }

  /** `material.quantity -= quantity; if (material.quantity === 0) material.isActive = false`.
      Once the stock guard has passed, the stock cannot go negative. */
  function AfterSale(m: Material, q: int): (r: Material)
    requires q <= m.quantity
    ensures r.quantity == m.quantity - q && r.quantity >= 0
    ensures r.isActive == if r.quantity == 0 then Some(false) else m.isActive
    ensures r.(quantity := m.quantity, isActive := m.isActive) == m
  {
    var left := m.quantity - q;
    m.(quantity := left, isActive := if left == 0 then Some(false) else m.isActive)
  }

  /** A sale that empties the stock takes the listing off the marketplace; any
      other sale leaves its visibility as it was. */
  lemma SaleVisibility(m: Material, q: int)
    requires q <= m.quantity
    ensures Inventory.OnMarketplace(AfterSale(m, q)) <==> q != m.quantity && Inventory.OnMarketplace(m)
  {
  }

  /** The guard does not exclude a negative quantity, which then raises the stock. */
  lemma NegativeOrderRaisesStock(m: Material, q: int)
    requires 0 <= m.quantity && q < 0
    ensures !Short(m, Some(q)) && AfterSale(m, q).quantity > m.quantity
  {
  }

  /** `["Approved", "Rejected", "Shipped"].includes(status)`: the three strings the
      seller may write, and no other. */
  function ParseSellerStatus(s: string): (r: Option<LegacyStatus>)
    ensures r.Some? <==> s == "Approved" || s == "Rejected" || s == "Shipped"
    ensures r.Some? ==> LegacyName(r.value) == s
  {
    if s == "Approved" then Some(LegacyStatus.Approved)
    else if s == "Rejected" then Some(LegacyStatus.Rejected)
    else if s == "Shipped" then Some(LegacyStatus.Shipped)
    else None
  }

  /** The subject of the buyer notification for each status the seller sets. */
  function StatusSubject(s: LegacyStatus): string {
    match s
    case Approved => "Order Approved"
    case Rejected => "Order Rejected"
    case Shipped => "Order Shipped"
    case _ => ""
  }
}
