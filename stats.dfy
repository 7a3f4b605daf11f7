/** routes/statsRoutes.js: counts and a revenue sum over the lists `find()`
    returns. Nothing is written. */
module Stats {
  import opened Schemas
  import Seqs

  datatype SellerStats = SellerStats(total: nat, approved: nat, rejected: nat, completed: nat, inProgress: nat)
  datatype BuyerStats = BuyerStats(total: nat, completed: nat, rejected: nat, inProgress: nat)
  datatype UserCounts = UserCounts(total: nat, buyers: nat, sellers: nat, admins: nat)
  datatype OrderCounts = OrderCounts(total: nat, placed: nat, approved: nat, pickedUp: nat,
                                     completed: nat, cancelled: nat)
  datatype AdminStats = AdminStats(users: UserCounts, orders: OrderCounts, materials: nat, revenue: int)

  // The filter predicates of the route, one per status test.
  predicate IsPlaced(o: Order) { o.orderStatus == OrderStatus.Placed }
  predicate IsApproved(o: Order) { o.orderStatus == OrderStatus.Approved }
  predicate IsPickedUp(o: Order) { o.orderStatus == OrderStatus.PickedUp }
  predicate IsCompleted(o: Order) { o.orderStatus == OrderStatus.Completed }
  predicate IsCancelled(o: Order) { o.orderStatus == OrderStatus.Cancelled }
  /** `["PLACED", "APPROVED", "PICKED_UP"].includes(o.orderStatus)` */
  predicate InProgress(o: Order) {
    o.orderStatus in {OrderStatus.Placed, OrderStatus.Approved, OrderStatus.PickedUp}
  }
  /** orderStatus PAID: in the schema's enum, counted by none of the buckets. */
  predicate IsPaidStatus(o: Order) { o.orderStatus == OrderStatus.Paid }
  predicate IsPaid(o: Order) { o.paymentStatus == PaymentStatus.Paid }

  function SoldBy(seller: UserId): Order -> bool { (o: Order) => o.seller == seller }
  function BoughtBy(buyer: UserId): Order -> bool { (o: Order) => o.buyer == buyer }

  predicate HasRole(r: Role, u: User) { u.role == r }

  /** GET /stats/seller over `Order.find({ seller })`. */
  function SellerStatsOf(orders: seq<Order>, seller: UserId): (r: SellerStats)
    ensures r.approved <= r.inProgress <= r.total
    ensures r.rejected + r.completed + r.inProgress <= r.total
  {
    var mine := Seqs.Filter(orders, SoldBy(seller));
    Seqs.CountMonotone(mine, IsApproved, InProgress);
    StatusPartition(mine);
    SellerStats(|mine|, Seqs.Count(mine, IsApproved), Seqs.Count(mine, IsCancelled),
                Seqs.Count(mine, IsCompleted), Seqs.Count(mine, InProgress))
  }

  /** GET /stats/buyer over `Order.find({ buyer })`. */
  function BuyerStatsOf(orders: seq<Order>, buyer: UserId): (r: BuyerStats)
    ensures r.completed + r.rejected + r.inProgress <= r.total
  {
    var mine := Seqs.Filter(orders, BoughtBy(buyer));
    StatusPartition(mine);
    BuyerStats(|mine|, Seqs.Count(mine, IsCompleted), Seqs.Count(mine, IsCancelled),
               Seqs.Count(mine, InProgress))
  }

  /** Every order status is counted by exactly one of "in progress", completed,
      cancelled and PAID, so the buyer's three buckets miss exactly the orders
      whose orderStatus is PAID. */
  lemma {:induction false} StatusPartition(s: seq<Order>)
    ensures Seqs.Count(s, IsCompleted) + Seqs.Count(s, IsCancelled) + Seqs.Count(s, InProgress)
            + Seqs.Count(s, IsPaidStatus) == |s|
  {
    if |s| > 0 {
      StatusPartition(s[1..]);
    }
  }

  /** The buyer's completed + rejected + inProgress equals the total when no
      order of the buyer carries orderStatus PAID. */
  lemma BuyerBucketsCoverAll(orders: seq<Order>, buyer: UserId)
    requires forall o :: o in orders && o.buyer == buyer ==> o.orderStatus != OrderStatus.Paid
    ensures var r := BuyerStatsOf(orders, buyer);
            r.completed + r.rejected + r.inProgress == r.total
  {
    var mine := Seqs.Filter(orders, BoughtBy(buyer));
    StatusPartition(mine);
    NoneCounted(mine, IsPaidStatus);
  }

  lemma {:induction false} NoneCounted(s: seq<Order>, p: Order -> bool)
    requires forall o :: o in s ==> !p(o)
    ensures Seqs.Count(s, p) == 0
  {
    if |s| > 0 {
      assert s[0] in s;
      assert forall o :: o in s[1..] ==> o in s;
      NoneCounted(s[1..], p);
    }
  }

  /** Appending an order of somebody else leaves the seller's statistics as they were. */
  lemma OthersOrdersIgnored(orders: seq<Order>, o: Order, seller: UserId)
    requires o.seller != seller
    ensures SellerStatsOf(orders + [o], seller) == SellerStatsOf(orders, seller)
  {
    Seqs.FilterAppend(orders, [o], SoldBy(seller));
    assert Seqs.Filter([o], SoldBy(seller)) == [];
    assert Seqs.Filter(orders, SoldBy(seller)) + [] == Seqs.Filter(orders, SoldBy(seller));
  }

  // ------------------------------------------------------------ admin

  /** `o.amount || 0`. */
  function AmountOrZero(o: Order): int {
    match o.amount
    case None => 0
    case Some(a) => a
  }

  /** `reduce((sum, o) => sum + (o.amount || 0), 0)`. */
  function SumAmounts(s: seq<Order>): int {
    if |s| == 0 then 0 else AmountOrZero(s[0]) + SumAmounts(s[1..])
  }

  function Revenue(orders: seq<Order>): int {
    SumAmounts(Seqs.Filter(orders, IsPaid))
  }

  /** Only paid orders contribute: revenue is the sum, over the orders, of the
      amount of each paid one and zero for each other. */
  lemma {:induction false} RevenueCountsPaidOnly(orders: seq<Order>)
    ensures Revenue(orders) == PaidSum(orders)
  {
    if |orders| > 0 {
      RevenueCountsPaidOnly(orders[1..]);
    }
  }

  /** With no negative amount stored the revenue is never negative. */
  lemma {:induction false} RevenueNonNegative(orders: seq<Order>)
    requires forall o :: o in orders ==> AmountOrZero(o) >= 0
    ensures Revenue(orders) >= 0
  {
    RevenueCountsPaidOnly(orders);
    PaidSumNonNegative(orders);
  }

  lemma {:induction false} PaidSumNonNegative(s: seq<Order>)
    requires forall o :: o in s ==> AmountOrZero(o) >= 0
    ensures PaidSum(s) >= 0
  {
    if |s| > 0 {
      assert s[0] in s;
      assert forall o :: o in s[1..] ==> o in s;
      PaidSumNonNegative(s[1..]);
    }
  }

  function PaidSum(s: seq<Order>): int {
    if |s| == 0 then 0 else (if IsPaid(s[0]) then AmountOrZero(s[0]) else 0) + PaidSum(s[1..])
  }

  /** An unpaid order can be added without changing the revenue. */
  lemma UnpaidAddsNothing(orders: seq<Order>, o: Order)
    requires !IsPaid(o)
    ensures Revenue(orders + [o]) == Revenue(orders)
  {
    Seqs.FilterAppend(orders, [o], IsPaid);
    assert Seqs.Filter(orders + [o], IsPaid) == Seqs.Filter(orders, IsPaid);
  }

  /** With no `amount` on any order the revenue is zero. */
  lemma {:induction false} RevenueWithoutAmounts(orders: seq<Order>)
    requires forall o :: o in orders ==> o.amount == None
    ensures Revenue(orders) == 0
  {
    RevenueCountsPaidOnly(orders);
    NoAmountsNoSum(orders);
  }

  lemma {:induction false} NoAmountsNoSum(s: seq<Order>)
    requires forall o :: o in s ==> o.amount == None
    ensures PaidSum(s) == 0
  {
    if |s| > 0 {
      assert s[0] in s;
      assert forall o :: o in s[1..] ==> o in s;
      NoAmountsNoSum(s[1..]);
    }
  }

  function CountRole(users: seq<User>, r: Role): nat {
    Seqs.Count(users, (u: User) => HasRole(r, u))
  }

  /** Every user has exactly one of the three roles. */
  lemma {:induction false} RolePartition(users: seq<User>)
    ensures CountRole(users, Buyer) + CountRole(users, Seller) + CountRole(users, Admin) == |users|
  {
    if |users| > 0 {
      RolePartition(users[1..]);
    }
  }

  lemma {:induction false} OrderStatusBound(s: seq<Order>)
    ensures Seqs.Count(s, IsPlaced) + Seqs.Count(s, IsApproved) + Seqs.Count(s, IsPickedUp)
            + Seqs.Count(s, IsCompleted) + Seqs.Count(s, IsCancelled) <= |s|
  {
    if |s| > 0 {
      OrderStatusBound(s[1..]);
    }
  }

  /** GET /stats/admin: None is the 403 "Admin access only" reply. */
  function AdminStatsOf(caller: User, users: seq<User>, orders: seq<Order>, materials: seq<Material>)
    : (r: Option<AdminStats>)
    ensures r.None? <==> caller.role != Admin
    ensures r.Some? ==> r.value.users.buyers + r.value.users.sellers + r.value.users.admins
                        == r.value.users.total
    ensures r.Some? ==> var c := r.value.orders;
                        c.placed + c.approved + c.pickedUp + c.completed + c.cancelled <= c.total
  {
    if caller.role != Admin then None
    else
      RolePartition(users);
      OrderStatusBound(orders);
      Some(AdminStats(
        UserCounts(|users|, CountRole(users, Buyer), CountRole(users, Seller), CountRole(users, Admin)),
        OrderCounts(|orders|, Seqs.Count(orders, IsPlaced), Seqs.Count(orders, IsApproved),
                    Seqs.Count(orders, IsPickedUp), Seqs.Count(orders, IsCompleted),
                    Seqs.Count(orders, IsCancelled)),
        |materials|,
        Revenue(orders)))
  }

  /** When every order still has its default orderStatus PLACED, the seller sees
      nothing approved, rejected or completed and everything in progress. */
  lemma {:induction false} AllPlacedStats(orders: seq<Order>, seller: UserId)
    requires forall o :: o in orders ==> o.orderStatus == OrderStatus.Placed
    ensures var r := SellerStatsOf(orders, seller);
            r.approved == 0 && r.rejected == 0 && r.completed == 0 && r.inProgress == r.total
  {
    var mine := Seqs.Filter(orders, SoldBy(seller));
    NoneCounted(mine, IsApproved);
    NoneCounted(mine, IsCancelled);
    NoneCounted(mine, IsCompleted);
    NoneCounted(mine, IsPaidStatus);
    StatusPartition(mine);
  }
}
