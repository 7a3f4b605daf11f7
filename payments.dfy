/** The computations of routes/paymentRoutes.js that involve no state: the amount
    charged, the options sent to Razorpay, and the HMAC-SHA256 (RFC 2104) check of
    the callback. The HMAC itself is an opaque parameter `hmac(secret, message)`
    standing for the hex digest. */
module Payments {
  import opened Schemas
  import Text

  const Currency: string := "INR"

  /** `order.material.basePrice * order.quantity`: rupees, from the stored records only. */
  function Amount(basePrice: int, quantity: int): int {
    basePrice * quantity
  }

  /** Rupees to paise for the gateway; whole rupees, so the rupee value is recovered. */
  function ToPaise(rupees: int): (p: int)
    ensures p % 100 == 0 && p / 100 == rupees
  {
    rupees * 100
  }

  /** The template string `order_${orderId}`. */
  function Receipt(orderId: OrderId): string {
    "order_" + Text.Decimal(orderId)
  }

  /** Different orders get different receipts. */
  lemma ReceiptIdentifiesOrder(a: OrderId, b: OrderId)
    requires Receipt(a) == Receipt(b)
    ensures a == b
  {
    assert Receipt(a)[6..] == Text.Decimal(a);
    assert Receipt(b)[6..] == Text.Decimal(b);
    Text.DecimalInjective(a, b);
  }

  /** The options passed to `razorpay.orders.create`. */
  datatype GatewayRequest = GatewayRequest(amount: int, currency: string, receipt: string)

  /** What the gateway answers: its order id and the amount and currency it recorded. */
  datatype GatewayOrder = GatewayOrder(id: string, amount: int, currency: string)

  function IntentRequest(orderId: OrderId, basePrice: int, quantity: int): (r: GatewayRequest)
    ensures r.amount / 100 == Amount(basePrice, quantity) && r.amount % 100 == 0
    ensures r.currency == "INR"
    ensures r.receipt == Receipt(orderId)
  {
    GatewayRequest(ToPaise(Amount(basePrice, quantity)), Currency, Receipt(orderId))
  }

  /** The signed message `${razorpay_order_id}|${razorpay_payment_id}`. */
  function SignedMessage(gatewayOrderId: string, gatewayPaymentId: string): (m: string)
    ensures |m| == |gatewayOrderId| + 1 + |gatewayPaymentId|
    ensures m[..|gatewayOrderId|] == gatewayOrderId && m[|gatewayOrderId|] == '|'
    ensures m[|gatewayOrderId| + 1..] == gatewayPaymentId
  {
    gatewayOrderId + "|" + gatewayPaymentId
  }

  /** Gateway order ids contain no "|", and then the signed message determines
      both identifiers. */
  lemma {:induction false} SignedMessageInjective(a: string, b: string, c: string, d: string)
    requires '|' !in a && '|' !in c
    requires SignedMessage(a, b) == SignedMessage(c, d)
    ensures a == c && b == d
  {
    var m := SignedMessage(a, b);
    assert m == a + ("|" + b);
    assert m == c + ("|" + d);
    Text.FindAfterPrefix(a, "|" + b, '|');
    Text.FindAfterPrefix(c, "|" + d, '|');
    assert Text.Find("|" + b, '|') == 0;
    assert Text.Find("|" + d, '|') == 0;
    assert |a| == |c|;
    assert a == m[..|a|] && c == m[..|c|];
    assert b == m[|a| + 1..] && d == m[|c| + 1..];
  }

  /** Without that condition two different pairs sign the same message. */
  lemma SignedMessageAmbiguous()
    ensures SignedMessage("a|b", "c") == SignedMessage("a", "b|c")
  {
  }

  /** `expectedSignature !== razorpay_signature`, negated: a plain string comparison. */
  predicate SignatureMatches(hmac: (string, string) -> string, secret: string,
                             gatewayOrderId: string, gatewayPaymentId: string, signature: string) {
    hmac(secret, SignedMessage(gatewayOrderId, gatewayPaymentId)) == signature
  }

  /** The check sees the two identifiers only through the signed message, so a
      signature accepted for one pair is accepted for every pair with the same
      message. */
  lemma SignatureFollowsMessage(hmac: (string, string) -> string, secret: string,
                                a: string, b: string, c: string, d: string, signature: string)
    requires SignedMessage(a, b) == SignedMessage(c, d)
    ensures SignatureMatches(hmac, secret, a, b, signature) <==> SignatureMatches(hmac, secret, c, d, signature)
  {
  }

  /** A signature for the pair ("a|b", "c") also passes for ("a", "b|c"). */
  lemma SplitSharesSignature(hmac: (string, string) -> string, secret: string, signature: string)
    ensures SignatureMatches(hmac, secret, "a|b", "c", signature) <==> SignatureMatches(hmac, secret, "a", "b|c", signature)
  {
    SignedMessageAmbiguous();
  }

  /** A request-body field passes `!field` only when present and non-empty. */
  predicate Truthy(s: Option<string>) {
    s.Some? && s.value != ""
  }

  /** The writes of a successful verification: the payment status and the three
      submitted values, nothing else. */
  function Settle(o: Order, info: PaymentInfo): (r: Order)
    ensures r.paymentStatus == PaymentStatus.Paid && r.paymentInfo == Some(info)
    ensures r.(paymentStatus := o.paymentStatus, paymentInfo := o.paymentInfo) == o
  {
    o.(paymentStatus := PaymentStatus.Paid, paymentInfo := Some(info))
  }
}
