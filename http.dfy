/** What a route sends back: an HTTP status code and a JSON body. A body that is
    `{ message: "..." }` carries one of the message texts below as a tag. */
module Http {
  import opened Schemas

  datatype Message =
    // orders
    | MaterialNotAvailable | InsufficientQuantity | OrderFailed | InvalidStatus
    | OrderNotFound | NotAuthorized | StatusUpdateFailed | ConfirmationFailed
    // payments
    | OrderIdRequired | OrderAlreadyPaid | PaymentOrderFailed | MissingPaymentDetails
    | PaymentAlreadyVerified | InvalidPaymentSignature | PaymentVerifiedSuccessfully
    | PaymentVerificationFailed
    // materials
    | MaterialNotFound | UpdateFailed | DeleteFailed | MaterialDeletedSuccessfully
    // users
    | AdminAccessOnly | ServerError | UserNotFound | CannotBlockAdmin
    | UserBlockedSuccessfully | UserUnblockedSuccessfully
    // access
    | NoTokenProvided | TokenInvalid | AccountBlocked | AccessDenied | InvalidToken
    | EmailAlreadyRegistered | RegistrationSuccessful | InvalidEmailOrPassword
    | LoginSuccessful
    // `err.message` echoed by a catch block: a schema validation error, a
    // failed mail delivery, or bcrypt's refusal of an absent password
    | ValidationError | MailError | HashError

  /** A user document with the password projected away (`select("-password")`). */
  datatype PublicUser = PublicUser(
    id: UserId, name: string, companyName: Option<string>, email: string,
    role: Role, isBlocked: bool)

  function Public(u: User): (p: PublicUser)
    ensures p.id == u.id && p.email == u.email && p.role == u.role && p.isBlocked == u.isBlocked
  {
    PublicUser(u.id, u.name, u.companyName, u.email, u.role, u.isBlocked)
  }

  /** The `user` object of the register and login replies. */
  datatype Profile = Profile(
    id: UserId, name: string, companyName: Option<string>, email: string, role: Role)

  function ProfileOf(u: User): Profile {
    Profile(u.id, u.name, u.companyName, u.email, u.role)
  }

  datatype Body =
    | Msg(message: Message)
    | OrderDoc(order: Order)
    | OrderList(orders: seq<Order>)
    | MaterialDoc(material: Material)
    | MaybeMaterial(found: Option<Material>)    // `res.json(null)` when absent
    | MaterialList(materials: seq<Material>)
    | PaymentIntent(razorpayOrderId: string, amount: int, currency: string, key: string)
    | Verified(verifiedMessage: Message, paidOrder: Order)
    | UserDoc(user: PublicUser)
    | UserList(users: seq<PublicUser>)
    | Toggled(toggleMessage: Message, toggledUser: User)
    | Auth(authMessage: Message, token: string, profile: Profile)

  datatype Response = Response(code: nat, body: Body)

  function Fail(code: nat, m: Message): Response {
    Response(code, Msg(m))
  }
}
