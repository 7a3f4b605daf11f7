/** Sequences of requests against one store, and what the handlers' contracts
    say about the outcome of the whole sequence. */
module Scenarios {
  import opened Schemas
  import opened Http
  import Access
  import Inventory
  import Payments
  import Moderation
  import opened Backend

  /** A correctly signed verification succeeds once; the same callback sent
      again is refused and writes nothing. */
  method VerifyTwice(s: Store, gatewayOrderId: string, gatewayPaymentId: string, signature: string,
                     id: OrderId) returns (first: Response, second: Response)
    requires s.Valid() && id in s.orders
    requires s.orders[id].paymentStatus != PaymentStatus.Paid
    requires gatewayOrderId != "" && gatewayPaymentId != "" && signature != ""
    requires Payments.SignatureMatches(s.env.hmacSha256, s.env.razorpayKeySecret,
                                       gatewayOrderId, gatewayPaymentId, signature)
    modifies s
    ensures s.Valid()
    ensures first.code == 200 && second == Fail(400, PaymentAlreadyVerified)
    ensures s.orders == old(s.orders)[id := Payments.Settle(old(s.orders)[id],
                          PaymentInfo(gatewayOrderId, gatewayPaymentId, signature))]
  {
    first := s.VerifyPayment(Some(gatewayOrderId), Some(gatewayPaymentId), Some(signature), Some(id));
    second := s.VerifyPayment(Some(gatewayOrderId), Some(gatewayPaymentId), Some(signature), Some(id));
  }

  /** An admin toggling the same non-admin user twice leaves every user as it was. */
  method ToggleTwice(s: Store, admin: User, id: UserId) returns (first: Response, second: Response)
    requires s.Valid() && admin.role == Admin
    requires id in s.users && s.users[id].role != Admin
    modifies s
    ensures s.Valid()
    ensures first.code == 200 && second.code == 200
    ensures s.users == old(s.users)
  {
    var before := s.users[id];
    first := s.ToggleBlock(admin, id);
    second := s.ToggleBlock(admin, id);
    Moderation.ToggleTwice(before);
    assert s.users[id] == before;
  }

  /** Blocking a user ends the sessions of tokens issued before the block:
      protect now refuses the token, while GET /auth/me still answers for it. */
  method BlockEndsSession(s: Store, admin: User, id: UserId, verify: string -> Option<Access.TokenPayload>,
                          token: string, role: Role) returns (r: Response)
    requires s.Valid() && admin.role == Admin
    requires id in s.users && s.users[id].role != Admin && !s.users[id].isBlocked
    requires ' ' !in token && token != ""
    requires verify(token) == Some(Access.TokenPayload(id, role))
    modifies s
    ensures id in s.users && r == Response(200, Toggled(UserBlockedSuccessfully, s.users[id]))
    ensures Access.Protect(Some("Bearer " + token), verify, s.users) == Access.Halt(Fail(403, AccountBlocked))
    ensures Access.Me(Some("Bearer " + token), verify, s.users) == Response(200, UserDoc(Public(s.users[id])))
  {
    r := s.ToggleBlock(admin, id);
    Access.MeIgnoresBlock(verify, s.users, token, role, id);
  }

  /** A seller lists 10 units at 100 rupees; a buyer orders 4. The listing keeps
      6 units and stays on the marketplace, and the payment intent asks the
      gateway for 40000 paise. */
  method OrderFourOfTen() returns (left: int, onMarketplace: bool, paise: int)
    ensures left == 6 && onMarketplace && paise == 40000
  {
    var env := Env((p: Access.TokenPayload) => "token", (pw: string) => "hash",
                   (key: string, msg: string) => "digest", "key", "secret");
    var s := new Store(env);
    var r := s.Register("Ravi", None, Some("ravi@example.com"), Some("pw"), Some("seller"), true);
    var seller := s.users[0];
    var body := Inventory.MaterialBody("PET flakes", "plastic", None, Some(10), "kg", Some(100),
                                       "Pune", None);
    r := s.CreateMaterial(seller, body);
    r := s.Register("Meera", None, Some("meera@example.com"), Some("pw"), None, true);
    var buyer := s.users[2];
    r := s.CreateOrder(buyer, 1, Some(4), None, true);
    assert r.code == 201;
    left := s.materials[1].quantity;
    onMarketplace := Inventory.OnMarketplace(s.materials[1]);
    var sent;
    r, sent := s.CreatePayment(Some(3), None);
    paise := sent.value.amount;
  }
}
