/** The three Mongoose schemas of the backend (models/User.js, models/Material.js,
    models/Order.js): records, enums and the defaults the schemas fill in. Every
    String enum of a schema is a datatype here; a string that arrives in a request
    body is turned into it by a Parse function that fails exactly where the schema's
    enum validator fails. */
module Schemas {

  datatype Option<T> = None | Some(value: T)

  /** Mongo ObjectIds; one counter in the store hands them out for every collection. */
  type UserId = nat
  type MaterialId = nat
  type OrderId = nat

  /** A `required: true` String path rejects undefined, null and the empty string;
      all three are the empty string here. */
  predicate Present(s: string) {
    s != ""
  }

  // ---------------------------------------------------------------- User

  datatype Role = Buyer | Seller | Admin

  const DefaultRole: Role := Buyer

  function RoleName(r: Role): string {
    match r
    case Buyer => "buyer"
    case Seller => "seller"
    case Admin => "admin"
  }

  /** The role enum validator: exactly the three names are accepted. */
  function ParseRole(s: string): (r: Option<Role>)
    ensures forall x :: r == Some(x) <==> RoleName(x) == s
  {
    if s == "buyer" then Some(Buyer)
    else if s == "seller" then Some(Seller)
    else if s == "admin" then Some(Admin)
    else None
  }

  datatype User = User(
    id: UserId,
    name: string,
    companyName: Option<string>,
    email: string,
    password: string,     // the bcrypt hash, never the plaintext
    role: Role,
    isBlocked: bool)

  /** A freshly created user document: isBlocked takes its schema default. */
  function NewUser(id: UserId, name: string, companyName: Option<string>, email: string,
                   passwordHash: string, role: Role): (u: User)
    ensures !u.isBlocked
    ensures u.id == id && u.email == email && u.password == passwordHash && u.role == role
  {
    User(id, name, companyName, email, passwordHash, role, false)
  }

  // ---------------------------------------------------------------- Material

  datatype MaterialStatus = Active | Sold | Removed

  const DefaultMaterialStatus: MaterialStatus := Active
  const DefaultCo2Savings: int := 0

  /** `isActive` is not declared by the schema but is read and written by the
      routes; a document may lack it, hence the Option. */
  datatype Material = Material(
    id: MaterialId,
    seller: UserId,
    name: string,
    materialType: string,
    description: Option<string>,
    quantity: int,          // no lower bound in the schema
    unit: string,
    basePrice: int,         // rupees
    location: string,
    estimatedCo2Savings: int,
    status: MaterialStatus,
    isActive: Option<bool>)

  // ---------------------------------------------------------------- Order

  datatype LogisticsMode = Direct | ThirdParty | Hub

  const DefaultLogisticsMode: LogisticsMode := Direct

  function LogisticsName(m: LogisticsMode): string {
    match m
    case Direct => "direct"
    case ThirdParty => "3pl"
    case Hub => "hub"
  }

  /** The logisticsMode path: absent takes the default, a present value must be one
      of the enum's three names (the empty string included, it is not). */
  function ParseLogistics(s: Option<string>): (r: Option<LogisticsMode>)
    ensures s.None? ==> r == Some(DefaultLogisticsMode)
    ensures s.Some? ==> forall x :: r == Some(x) <==> LogisticsName(x) == s.value
  {
    match s
    case None => Some(DefaultLogisticsMode)
    case Some(v) =>
      if v == "direct" then Some(Direct)
      else if v == "3pl" then Some(ThirdParty)
      else if v == "hub" then Some(Hub)
      else None
  }

  /** The schema's lifecycle enum; PLACED is the default. */
  datatype OrderStatus = Placed | Paid | Approved | PickedUp | Completed | Cancelled

  const DefaultOrderStatus: OrderStatus := OrderStatus.Placed

  datatype PaymentStatus = Pending | Paid | Failed

  const DefaultPaymentStatus: PaymentStatus := PaymentStatus.Pending

  datatype Canceller = ByAdmin | BySeller | ByBuyer

  /** The undeclared `status` string the order routes write ("Placed", "Approved",
      "Rejected", "Shipped", "Completed"). */
  datatype LegacyStatus = Placed | Approved | Rejected | Shipped | Completed

  function LegacyName(s: LegacyStatus): string {
    match s
    case Placed => "Placed"
    case Approved => "Approved"
    case Rejected => "Rejected"
    case Shipped => "Shipped"
    case Completed => "Completed"
  }

  datatype PaymentInfo = PaymentInfo(
    razorpayOrderId: string,
    razorpayPaymentId: string,
    razorpaySignature: string)

  /** `status` and `amount` are not declared by the schema; the routes write the
      former and the admin statistics read the latter. */
  datatype Order = Order(
    id: OrderId,
    buyer: UserId,
    seller: UserId,
    material: MaterialId,
    quantity: int,
    logisticsMode: LogisticsMode,
    orderStatus: OrderStatus,
    paymentStatus: PaymentStatus,
    cancelledBy: Option<Canceller>,
    paymentInfo: Option<PaymentInfo>,
    status: Option<LegacyStatus>,
    amount: Option<int>)

  /** A freshly created order document: the lifecycle fields take their schema
      defaults and the optional ones are absent. */
  function NewOrder(id: OrderId, buyer: UserId, seller: UserId, material: MaterialId,
                    quantity: int, mode: LogisticsMode, status: LegacyStatus): (o: Order)
    ensures o.orderStatus == DefaultOrderStatus && o.paymentStatus == DefaultPaymentStatus
    ensures o.cancelledBy == None && o.paymentInfo == None && o.amount == None
    ensures o.id == id && o.buyer == buyer && o.seller == seller && o.material == material
    ensures o.quantity == quantity && o.logisticsMode == mode && o.status == Some(status)
  {
    Order(id, buyer, seller, material, quantity, mode, DefaultOrderStatus,
          DefaultPaymentStatus, None, None, Some(status), None)
  }
}
