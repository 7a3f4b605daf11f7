/** The backend's state and its route handlers. The three Mongo collections are
    maps from document id to document, `nextId` hands out ObjectIds, and
    `outbox` records the notifications that were delivered. Every handler is a
    method that answers with a `Response` and writes what the route writes, in
    the order the route checks its guards.

    A protected handler takes `me`, the `req.user` that `protect`
    (Access.Protect) placed on the request. Whether a notification is
    delivered is the parameter `mailOk`; the foreign calls the handlers make
    (jwt.sign, bcrypt.hash, HMAC-SHA256, the Razorpay keys) are fixed in `Env`. */
module Backend {
  import opened Schemas
  import opened Http
  import Seqs
  import Access
  import Payments
  import Inventory
  import Ordering
  import Moderation
  import Stats
  import Timeline

  datatype Env = Env(
    jwtSign: Access.TokenPayload -> string,
    bcryptHash: string -> string,
    hmacSha256: (string, string) -> string,
    razorpayKeyId: string,
    razorpayKeySecret: string)

  /** A delivered notification: recipient and subject (the HTML body is static copy). */
  datatype Mail = Mail(to: string, subject: string)

  /** What the routes keep true of every order: no shown route writes
      `orderStatus`, `cancelledBy` or `amount`, so they keep their creation
      values, and a PAID payment status always comes with its payment details. */
  predicate OrderShape(o: Order) {
    && o.orderStatus == DefaultOrderStatus
    && o.cancelledBy.None?
    && o.amount.None?
    && o.paymentStatus != PaymentStatus.Failed
    && (o.paymentStatus == PaymentStatus.Paid ==> o.paymentInfo.Some?)
  }

  class Store {
    const env: Env
    var users: map<UserId, User>
    var materials: map<MaterialId, Material>
    var orders: map<OrderId, Order>
    var nextId: nat
    var outbox: seq<Mail>

    ghost predicate Valid()
      reads this
    {
      && (forall k :: k in users ==> k < nextId && users[k].id == k)
      && (forall k :: k in materials ==> k < nextId && materials[k].id == k)
      && (forall k :: k in orders ==> k < nextId && orders[k].id == k)
      && Access.UniqueEmails(users)
      && (forall k :: k in materials ==> materials[k].status == DefaultMaterialStatus)
      && (forall k :: k in orders ==> OrderShape(orders[k]))
    }

    constructor(env: Env)
      ensures Valid()
      ensures this.env == env
      ensures users == map[] && materials == map[] && orders == map[] && nextId == 0 && outbox == []
    {
      this.env := env;
      users := map[];
      materials := map[];
      orders := map[];
      nextId := 0;
      outbox := [];
    }

    // ------------------------------------------------------------ collections

    /** `User.find()`: every stored user, in the order of creation. */
    function AllUsers(): (r: seq<User>)
      requires Valid()
      reads this
      ensures forall u :: u in r <==> u in users.Values
    {
      Seqs.InsertionOrder(users, nextId)
    }

    /** `Material.find()`. */
    function AllMaterials(): (r: seq<Material>)
      requires Valid()
      reads this
      ensures forall m :: m in r <==> m in materials.Values
    {
      Seqs.InsertionOrder(materials, nextId)
    }

    /** `Order.find()`. */
    function AllOrders(): (r: seq<Order>)
      requires Valid()
      reads this
      ensures forall o :: o in r <==> o in orders.Values
    {
      Seqs.InsertionOrder(orders, nextId)
    }

    // ------------------------------------------------------------ authRoutes.js

    /** POST /auth/register. The uniqueness check comes first; the new user is
        stored before the welcome mail is sent and is kept when delivery fails. */
    method Register(name: string, companyName: Option<string>, email: Option<string>,
                    password: Option<string>, role: Option<string>, mailOk: bool)
      returns (r: Response)
      requires Valid()
      modifies this
      ensures Valid()
      ensures Access.FindsUser(old(users), email) ==>
                r == Fail(400, EmailAlreadyRegistered) && unchanged(this)
      ensures !Access.FindsUser(old(users), email) && password.None? ==>
                r == Fail(500, HashError) && unchanged(this)
      ensures !Access.FindsUser(old(users), email) && password.Some? &&
              (Access.ResolveRole(role).None? || !Present(name) || email.None? || !Present(email.value)) ==>
                r == Fail(500, ValidationError) && unchanged(this)
      ensures !Access.FindsUser(old(users), email) && password.Some? &&
              Access.ResolveRole(role).Some? && Present(name) && email.Some? && Present(email.value) ==>
                var id := old(nextId);
                var u := NewUser(id, name, companyName, email.value, env.bcryptHash(password.value),
                                 Access.ResolveRole(role).value);
                && users == old(users)[id := u] && nextId == id + 1
                && materials == old(materials) && orders == old(orders)
                && (mailOk ==> && outbox == old(outbox) + [Mail(email.value, "Welcome to Trash2Trade")]
                               && r == Response(200, Auth(RegistrationSuccessful,
                                                          Access.GenerateToken(env.jwtSign, id, u.role),
                                                          ProfileOf(u))))
                && (!mailOk ==> outbox == old(outbox) && r == Fail(500, MailError))
    {
      var existing := Access.FindOne(AllUsers(), email);
      FindOneFindsUser(email);
      if existing.Some? {
        return Fail(400, EmailAlreadyRegistered);
      }
      if password.None? {
        return Fail(500, HashError);
      }
      var hashed := env.bcryptHash(password.value);
      var resolved := Access.ResolveRole(role);
      if resolved.None? || !Present(name) || email.None? || !Present(email.value) {
        return Fail(500, ValidationError);
      }
      var id := nextId;
      var u := NewUser(id, name, companyName, email.value, hashed, resolved.value);
      users := users[id := u];
      nextId := nextId + 1;
      if !mailOk {
        return Fail(500, MailError);
      }
      outbox := outbox + [Mail(email.value, "Welcome to Trash2Trade")];
      var token := Access.GenerateToken(env.jwtSign, id, u.role);
      r := Response(200, Auth(RegistrationSuccessful, token, ProfileOf(u)));
    }

    /** POST /auth/login over the stored users. Emails are unique, so a given
        email decides the reply by the one user registered with it; an absent
        email lets the first stored user's password decide. */
    function Login(email: Option<string>, password: Option<string>, compare: (string, string) -> bool): (r: Response)
      requires Valid()
      reads this
      ensures !Access.FindsUser(users, email) ==> r == Fail(400, InvalidEmailOrPassword)
      ensures forall k :: k in users && email == Some(users[k].email) ==>
                r == Access.CheckPassword(users[k], password, compare, env.jwtSign)
      ensures email.None? && users != map[] ==>
                exists k :: k in users && r == Access.CheckPassword(users[k], password, compare, env.jwtSign)
    {
      FindOneFindsUser(email);
      assert forall k :: k in users && email == Some(users[k].email) ==>
               Access.FindOne(AllUsers(), email) == Some(users[k]) by {
        forall k | k in users && email == Some(users[k].email) {
          LoginFindsOwner(k);
        }
      }
      assert email.None? && users != map[] ==> AllUsers()[0] in users.Values;
      Access.Login(AllUsers(), email, password, compare, env.jwtSign)
    }

    /** `findOne` over the stored users finds a document exactly when one matches. */
    lemma FindOneFindsUser(email: Option<string>)
      requires Valid()
      ensures Access.FindOne(AllUsers(), email).Some? <==> Access.FindsUser(users, email)
    {
      if email.None? && users != map[] {
        var k :| k in users;
        assert users[k] in AllUsers();
      }
      if email.Some? && Access.EmailTaken(users, email.value) {
        var k :| k in users && users[k].email == email.value;
        assert users[k] in AllUsers();
      }
    }

    /** Emails are unique, so looking a stored user's email up finds that user. */
    lemma LoginFindsOwner(id: UserId)
      requires Valid() && id in users
      ensures Access.FindByEmail(AllUsers(), users[id].email) == Some(users[id])
    {
      var found := Access.FindByEmail(AllUsers(), users[id].email);
      assert users[id] in AllUsers();
      var v := found.value;
      assert v in users.Values;
      var k :| k in users && users[k] == v;
    }

    // ------------------------------------------------------------ materialRoutes.js

    /** POST /materials: any signed-in user may list a material. */
    method CreateMaterial(me: User, body: Inventory.MaterialBody) returns (r: Response)
      requires Valid()
      modifies this
      ensures Valid()
      ensures !Inventory.Complete(body) ==> r == Fail(500, ValidationError) && unchanged(this)
      ensures Inventory.Complete(body) ==>
                var m := Inventory.Created(old(nextId), me.id, body);
                && materials == old(materials)[old(nextId) := m] && nextId == old(nextId) + 1
                && users == old(users) && orders == old(orders) && outbox == old(outbox)
                && r == Response(200, MaterialDoc(m))
    {
      if !Inventory.Complete(body) {
        return Fail(500, ValidationError);
      }
      var m := Inventory.Created(nextId, me.id, body);
      materials := materials[nextId := m];
      nextId := nextId + 1;
      r := Response(200, MaterialDoc(m));
    }

    /** PUT /materials/:id: only the material's seller may edit it. */
    method EditMaterial(me: User, id: MaterialId, body: Inventory.MaterialBody) returns (r: Response)
      requires Valid()
      modifies this
      ensures Valid()
      ensures id !in old(materials) ==> r == Fail(404, MaterialNotFound) && unchanged(this)
      ensures id in old(materials) && old(materials)[id].seller != me.id ==>
                r == Fail(403, NotAuthorized) && unchanged(this)
      ensures id in old(materials) && old(materials)[id].seller == me.id && !Inventory.Complete(body) ==>
                r == Fail(500, UpdateFailed) && unchanged(this)
      ensures id in old(materials) && old(materials)[id].seller == me.id && Inventory.Complete(body) ==>
                var m := Inventory.Edited(old(materials)[id], body);
                && materials == old(materials)[id := m]
                && users == old(users) && orders == old(orders) && nextId == old(nextId)
                && outbox == old(outbox)
                && r == Response(200, MaterialDoc(m))
    {
      if id !in materials {
        return Fail(404, MaterialNotFound);
      }
      var m := materials[id];
      if m.seller != me.id {
        return Fail(403, NotAuthorized);
      }
      if !Inventory.Complete(body) {
        return Fail(500, UpdateFailed);
      }
      m := Inventory.Edited(m, body);
      materials := materials[id := m];
      r := Response(200, MaterialDoc(m));
    }

    /** DELETE /materials/:id: only the material's seller may delete it; orders
        that refer to it are left as they are. */
    method DeleteMaterial(me: User, id: MaterialId) returns (r: Response)
      requires Valid()
      modifies this
      ensures Valid()
      ensures id !in old(materials) ==> r == Fail(404, MaterialNotFound) && unchanged(this)
      ensures id in old(materials) && old(materials)[id].seller != me.id ==>
                r == Fail(403, NotAuthorized) && unchanged(this)
      ensures id in old(materials) && old(materials)[id].seller == me.id ==>
                && materials == old(materials) - {id}
                && users == old(users) && orders == old(orders) && nextId == old(nextId)
                && outbox == old(outbox)
                && r == Response(200, Msg(MaterialDeletedSuccessfully))
    {
      if id !in materials {
        return Fail(404, MaterialNotFound);
      }
      if materials[id].seller != me.id {
        return Fail(403, NotAuthorized);
      }
      materials := materials - {id};
      r := Response(200, Msg(MaterialDeletedSuccessfully));
    }

    /** GET /materials: the materials whose isActive is true or absent. */
    function Marketplace(): (r: seq<Material>)
      requires Valid()
      reads this
      ensures forall m :: m in r <==> m in materials.Values && Inventory.OnMarketplace(m)
    {
      Seqs.Filter(AllMaterials(), Inventory.OnMarketplace)
    }

    /** GET /materials/my: all of the caller's materials, active or not. */
    function MyMaterials(me: User): (r: seq<Material>)
      requires Valid()
      reads this
      ensures forall m :: m in r <==> m in materials.Values && m.seller == me.id
    {
      Seqs.Filter(AllMaterials(), (m: Material) => m.seller == me.id)
    }

    /** GET /materials/:id: always 200, with `null` for an unknown id; deactivated
        materials are served too. */
    function GetMaterial(id: MaterialId): (r: Response)
      reads this
      ensures r.code == 200 && r.body.MaybeMaterial?
      ensures r.body.found.Some? <==> id in materials
      ensures r.body.found.Some? ==> r.body.found.value == materials[id]
    {
      Response(200, MaybeMaterial(if id in materials then Some(materials[id]) else None))
    }

    // ------------------------------------------------------------ orderRoutes.js

    /** POST /orders. The order is created and the stock decremented before the
        seller is notified; a failed notification does not undo either. (The
        route passes two arguments to the one-parameter `orderPlacedEmail`, so the
        mail names the string "Seller" where the material name was meant; only
        the subject is modelled.) */
    method CreateOrder(me: User, materialId: MaterialId, quantity: Option<int>,
                       logisticsMode: Option<string>, mailOk: bool) returns (r: Response)
      requires Valid()
      modifies this
      ensures Valid()
      ensures materialId !in old(materials) || !Ordering.Available(old(materials)[materialId]) ==>
                r == Fail(404, MaterialNotAvailable) && unchanged(this)
      ensures materialId in old(materials) && Ordering.Available(old(materials)[materialId]) ==>
                var m := old(materials)[materialId];
                && (Ordering.Short(m, quantity) ==>
                      r == Fail(400, InsufficientQuantity) && unchanged(this))
                && (!Ordering.Short(m, quantity) && !Ordering.Placeable(old(users), m, quantity, logisticsMode) ==>
                      r == Fail(500, OrderFailed) && unchanged(this))
      ensures materialId in old(materials) && Ordering.Available(old(materials)[materialId]) &&
              !Ordering.Short(old(materials)[materialId], quantity) &&
              Ordering.Placeable(old(users), old(materials)[materialId], quantity, logisticsMode) ==>
                var m := old(materials)[materialId];
                var q := quantity.value;
                var o := NewOrder(old(nextId), me.id, m.seller, materialId, q,
                                  ParseLogistics(logisticsMode).value, LegacyStatus.Placed);
                && orders == old(orders)[old(nextId) := o] && nextId == old(nextId) + 1
                && materials == old(materials)[materialId := Ordering.AfterSale(m, q)]
                && users == old(users)
                && (mailOk ==> && outbox == old(outbox) + [Mail(users[m.seller].email, "New Order Received")]
                               && r == Response(201, OrderDoc(o)))
                && (!mailOk ==> outbox == old(outbox) && r == Fail(500, OrderFailed))
    {
      if materialId !in materials || !Ordering.Available(materials[materialId]) {
        return Fail(404, MaterialNotAvailable);
      }
      var m := materials[materialId];
      if Ordering.Short(m, quantity) {
        return Fail(400, InsufficientQuantity);
      }
      if !Ordering.Placeable(users, m, quantity, logisticsMode) {
        return Fail(500, OrderFailed);
      }
      var q := quantity.value;
      var o := NewOrder(nextId, me.id, m.seller, materialId, q,
                        ParseLogistics(logisticsMode).value, LegacyStatus.Placed);
      orders := orders[nextId := o];
      nextId := nextId + 1;
      materials := materials[materialId := Ordering.AfterSale(m, q)];
      if !mailOk {
        return Fail(500, OrderFailed);
      }
      outbox := outbox + [Mail(users[m.seller].email, "New Order Received")];
      r := Response(201, OrderDoc(o));
    }

    /** PUT /orders/:id/status. The status string is checked before the order is
        looked up; the previous status is not consulted. The write is saved
        before the buyer is notified, so a missing buyer or material (which the
        notification dereferences) or a failed delivery answers 500 over a
        saved write. */
    method UpdateStatus(me: User, id: OrderId, status: string, mailOk: bool) returns (r: Response)
      requires Valid()
      modifies this
      ensures Valid()
      ensures Ordering.ParseSellerStatus(status).None? ==> r == Fail(400, InvalidStatus) && unchanged(this)
      ensures Ordering.ParseSellerStatus(status).Some? && id !in old(orders) ==>
                r == Fail(404, OrderNotFound) && unchanged(this)
      ensures Ordering.ParseSellerStatus(status).Some? && id in old(orders) && old(orders)[id].seller != me.id ==>
                r == Fail(403, NotAuthorized) && unchanged(this)
      ensures Ordering.ParseSellerStatus(status).Some? && id in old(orders) && old(orders)[id].seller == me.id ==>
                var s := Ordering.ParseSellerStatus(status).value;
                var o := old(orders)[id].(status := Some(s));
                && orders == old(orders)[id := o]
                && users == old(users) && materials == old(materials) && nextId == old(nextId)
                && (o.buyer in users && o.material in materials && mailOk ==>
                      && outbox == old(outbox) + [Mail(users[o.buyer].email, Ordering.StatusSubject(s))]
                      && r == Response(200, OrderDoc(o)))
                && (!(o.buyer in users && o.material in materials && mailOk) ==>
                      outbox == old(outbox) && r == Fail(500, StatusUpdateFailed))
    {
      var parsed := Ordering.ParseSellerStatus(status);
      if parsed.None? {
        return Fail(400, InvalidStatus);
      }
      if id !in orders {
        return Fail(404, OrderNotFound);
      }
      var o := orders[id];
      if o.seller != me.id {
        return Fail(403, NotAuthorized);
      }
      o := o.(status := Some(parsed.value));
      orders := orders[id := o];
      if o.buyer !in users || o.material !in materials || !mailOk {
        return Fail(500, StatusUpdateFailed);
      }
      outbox := outbox + [Mail(users[o.buyer].email, Ordering.StatusSubject(parsed.value))];
      r := Response(200, OrderDoc(o));
    }

    /** PUT /orders/:id/confirm: only the order's buyer, whatever the status was. */
    method ConfirmDelivery(me: User, id: OrderId, mailOk: bool) returns (r: Response)
      requires Valid()
      modifies this
      ensures Valid()
      ensures id !in old(orders) ==> r == Fail(404, OrderNotFound) && unchanged(this)
      ensures id in old(orders) && old(orders)[id].buyer != me.id ==>
                r == Fail(403, NotAuthorized) && unchanged(this)
      ensures id in old(orders) && old(orders)[id].buyer == me.id ==>
                var o := old(orders)[id].(status := Some(LegacyStatus.Completed));
                && orders == old(orders)[id := o]
                && users == old(users) && materials == old(materials) && nextId == old(nextId)
                && (o.seller in users && o.material in materials && mailOk ==>
                      && outbox == old(outbox) + [Mail(users[o.seller].email, "Order Completed")]
                      && r == Response(200, OrderDoc(o)))
                && (!(o.seller in users && o.material in materials && mailOk) ==>
                      outbox == old(outbox) && r == Fail(500, ConfirmationFailed))
    {
      if id !in orders {
        return Fail(404, OrderNotFound);
      }
      var o := orders[id];
      if o.buyer != me.id {
        return Fail(403, NotAuthorized);
      }
      o := o.(status := Some(LegacyStatus.Completed));
      orders := orders[id := o];
      if o.seller !in users || o.material !in materials || !mailOk {
        return Fail(500, ConfirmationFailed);
      }
      outbox := outbox + [Mail(users[o.seller].email, "Order Completed")];
      r := Response(200, OrderDoc(o));
    }

    /** GET /orders/my-sells. */
    function MySells(me: User): (r: seq<Order>)
      requires Valid()
      reads this
      ensures forall o :: o in r <==> o in orders.Values && o.seller == me.id
    {
      Seqs.Filter(AllOrders(), Stats.SoldBy(me.id))
    }

    /** GET /orders/my-buys. */
    function MyBuys(me: User): (r: seq<Order>)
      requires Valid()
      reads this
      ensures forall o :: o in r <==> o in orders.Values && o.buyer == me.id
    {
      Seqs.Filter(AllOrders(), Stats.BoughtBy(me.id))
    }

    // ------------------------------------------------------------ paymentRoutes.js

    /** POST /payments/create, given what Razorpay answers (None: the call threw).
        `sent` is the request made to Razorpay, if any. Nothing is written, and
        the caller is not compared with the order's buyer. */
    method CreatePayment(orderId: Option<OrderId>, reply: Option<Payments.GatewayOrder>)
      returns (r: Response, sent: Option<Payments.GatewayRequest>)
      requires Valid()
      ensures orderId.None? ==> r == Fail(400, OrderIdRequired) && sent.None?
      ensures orderId.Some? && orderId.value !in orders ==> r == Fail(404, OrderNotFound) && sent.None?
      ensures orderId.Some? && orderId.value in orders ==>
                var o := orders[orderId.value];
                && (o.paymentStatus == PaymentStatus.Paid ==> r == Fail(400, OrderAlreadyPaid) && sent.None?)
                && (o.paymentStatus != PaymentStatus.Paid && o.material !in materials ==>
                      r == Fail(500, PaymentOrderFailed) && sent.None?)
                && (o.paymentStatus != PaymentStatus.Paid && o.material in materials ==>
                      && sent == Some(Payments.IntentRequest(o.id, materials[o.material].basePrice, o.quantity))
                      && r == match reply
                              case None => Fail(500, PaymentOrderFailed)
                              case Some(g) => Response(201, PaymentIntent(g.id, g.amount, g.currency,
                                                                          env.razorpayKeyId)))
    {
      if orderId.None? {
        return Fail(400, OrderIdRequired), None;
      }
      if orderId.value !in orders {
        return Fail(404, OrderNotFound), None;
      }
      var o := orders[orderId.value];
      if o.paymentStatus == PaymentStatus.Paid {
        return Fail(400, OrderAlreadyPaid), None;
      }
      if o.material !in materials {
        return Fail(500, PaymentOrderFailed), None;
      }
      var m := materials[o.material];
      sent := Some(Payments.IntentRequest(orderId.value, m.basePrice, o.quantity));
      match reply {
        case None =>
          r := Fail(500, PaymentOrderFailed);
        case Some(g) =>
          r := Response(201, PaymentIntent(g.id, g.amount, g.currency, env.razorpayKeyId));
      }
    }

    /** POST /payments/verify. The guards run in the route's order; only a
        matching signature writes, and it writes the payment fields alone. */
    method VerifyPayment(gatewayOrderId: Option<string>, gatewayPaymentId: Option<string>,
                         signature: Option<string>, orderId: Option<OrderId>) returns (r: Response)
      requires Valid()
      modifies this
      ensures Valid()
      ensures !(Payments.Truthy(gatewayOrderId) && Payments.Truthy(gatewayPaymentId) &&
                Payments.Truthy(signature) && orderId.Some?) ==>
                r == Fail(400, MissingPaymentDetails) && unchanged(this)
      ensures Payments.Truthy(gatewayOrderId) && Payments.Truthy(gatewayPaymentId) &&
              Payments.Truthy(signature) && orderId.Some? ==>
                var id := orderId.value;
                && (id !in old(orders) ==> r == Fail(404, OrderNotFound) && unchanged(this))
                && (id in old(orders) && old(orders)[id].paymentStatus == PaymentStatus.Paid ==>
                      r == Fail(400, PaymentAlreadyVerified) && unchanged(this))
                && (id in old(orders) && old(orders)[id].paymentStatus != PaymentStatus.Paid ==>
                      if Payments.SignatureMatches(env.hmacSha256, env.razorpayKeySecret, gatewayOrderId.value,
                                                   gatewayPaymentId.value, signature.value)
                      then
                        var o := Payments.Settle(old(orders)[id], PaymentInfo(gatewayOrderId.value,
                                                   gatewayPaymentId.value, signature.value));
                        && orders == old(orders)[id := o]
                        && users == old(users) && materials == old(materials) && nextId == old(nextId)
                        && outbox == old(outbox)
                        && r == Response(200, Verified(PaymentVerifiedSuccessfully, o))
                      else r == Fail(400, InvalidPaymentSignature) && unchanged(this))
    {
      if !Payments.Truthy(gatewayOrderId) || !Payments.Truthy(gatewayPaymentId) ||
         !Payments.Truthy(signature) || orderId.None? {
        return Fail(400, MissingPaymentDetails);
      }
      var id := orderId.value;
      if id !in orders {
        return Fail(404, OrderNotFound);
      }
      var o := orders[id];
      if o.paymentStatus == PaymentStatus.Paid {
        return Fail(400, PaymentAlreadyVerified);
      }
      if !Payments.SignatureMatches(env.hmacSha256, env.razorpayKeySecret, gatewayOrderId.value,
                                    gatewayPaymentId.value, signature.value) {
        return Fail(400, InvalidPaymentSignature);
      }
      o := Payments.Settle(o, PaymentInfo(gatewayOrderId.value, gatewayPaymentId.value, signature.value));
      orders := orders[id := o];
      r := Response(200, Verified(PaymentVerifiedSuccessfully, o));
    }

    // ------------------------------------------------------------ userRoutes.js

    /** GET /users/admin/all: the users without their passwords, for admins only. */
    function ListUsers(me: User): (r: Response)
      requires Valid()
      reads this
      ensures me.role != Admin ==> r == Fail(403, AdminAccessOnly)
      ensures me.role == Admin ==>
                && r.code == 200 && r.body.UserList?
                && forall p :: p in r.body.users <==> exists u :: u in users.Values && p == Public(u)
    {
      if me.role != Admin then Fail(403, AdminAccessOnly)
      else Response(200, UserList(Seqs.Map(AllUsers(), Public)))
    }

    /** PUT /users/admin/:id/toggle. The reply carries the whole user document,
        password hash included. */
    method ToggleBlock(me: User, id: UserId) returns (r: Response)
      requires Valid()
      modifies this
      ensures Valid()
      ensures me.role != Admin ==> r == Fail(403, AdminAccessOnly) && unchanged(this)
      ensures me.role == Admin && id !in old(users) ==> r == Fail(404, UserNotFound) && unchanged(this)
      ensures me.role == Admin && id in old(users) && old(users)[id].role == Admin ==>
                r == Fail(400, CannotBlockAdmin) && unchanged(this)
      ensures me.role == Admin && id in old(users) && old(users)[id].role != Admin ==>
                var u := Moderation.Toggle(old(users)[id]);
                && users == old(users)[id := u]
                && materials == old(materials) && orders == old(orders) && nextId == old(nextId)
                && outbox == old(outbox)
                && r == Response(200, Toggled(Moderation.ToggleMessage(u), u))
    {
      if me.role != Admin {
        return Fail(403, AdminAccessOnly);
      }
      if id !in users {
        return Fail(404, UserNotFound);
      }
      var u := users[id];
      if u.role == Admin {
        return Fail(400, CannotBlockAdmin);
      }
      u := Moderation.Toggle(u);
      users := users[id := u];
      r := Response(200, Toggled(Moderation.ToggleMessage(u), u));
    }

    // ------------------------------------------------------------ statsRoutes.js

    /** GET /stats/seller over the stored orders. */
    function SellerStats(me: User): (r: Stats.SellerStats)
      requires Valid()
      reads this
      ensures r.total == |MySells(me)|
    {
      Seqs.CountIsFilterLength(AllOrders(), Stats.SoldBy(me.id));
      Stats.SellerStatsOf(AllOrders(), me.id)
    }

    /** GET /stats/buyer over the stored orders. */
    function BuyerStats(me: User): (r: Stats.BuyerStats)
      requires Valid()
      reads this
      ensures r.total == |MyBuys(me)|
      ensures r.completed + r.rejected + r.inProgress == r.total
    {
      Seqs.CountIsFilterLength(AllOrders(), Stats.BoughtBy(me.id));
      Stats.BuyerBucketsCoverAll(AllOrders(), me.id);
      Stats.BuyerStatsOf(AllOrders(), me.id)
    }

    /** GET /stats/admin over the stored collections. */
    function AdminStats(me: User): (r: Option<Stats.AdminStats>)
      requires Valid()
      reads this
      ensures r.None? <==> me.role != Admin
    {
      Stats.AdminStatsOf(me, AllUsers(), AllOrders(), AllMaterials())
    }

    // ------------------------------------------------------------ consequences

    /** Since no route moves `orderStatus` off PLACED, every seller sees nothing
        approved, rejected or completed, and every order in progress. */
    lemma SellerStatsAllInProgress(me: User)
      requires Valid()
      ensures var s := Stats.SellerStatsOf(AllOrders(), me.id);
              s.approved == 0 && s.rejected == 0 && s.completed == 0 && s.inProgress == s.total
    {
      Stats.AllPlacedStats(AllOrders(), me.id);
    }

    /** Since no route writes `amount`, the admin revenue is always 0, however
        many orders are paid. */
    lemma RevenueAlwaysZero()
      requires Valid()
      ensures Stats.Revenue(AllOrders()) == 0
    {
      Stats.RevenueWithoutAmounts(AllOrders());
    }

    /** Since `orderStatus` stays PLACED, the buyer dashboard offers neither the
        Pay nor the Confirm Delivery control for any stored order, and its
        timeline lights only the first step. */
    lemma DashboardControlsNeverShown(id: OrderId)
      requires Valid() && id in orders
      ensures !Timeline.ShowPay(orders[id]) && !Timeline.ShowConfirm(orders[id])
      ensures Timeline.TimelineOf(orders[id].orderStatus) == Timeline.Chips([true, false, false, false])
    {
      Timeline.StepPrefixActive(0);
      assert Timeline.Chips(seq(4, k => k <= 0)).active == [true, false, false, false];
    }
  }
}
