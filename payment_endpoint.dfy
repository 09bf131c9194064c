/**
 * The payment endpoint: it checks a payment request, fills in the redirect
 * URLs and metadata the request leaves out, makes one checkout-session call
 * to the payment gateway, and answers with the checkout URL.
 *
 * The gateway is the parameter `gateway`: it maps the call's arguments to
 * the URL it returns (None for null) or to a thrown exception.
 */
module PaymentEndpoint {
  import opened Wrappers
  import opened Text
  import opened Http
  import opened PaymentModels

  const DEFAULT_SUCCESS_URL := "https://example.com/success"
  const DEFAULT_CANCEL_URL := "https://example.com/cancel"

  const BODY_REQUIRED: Response<PaymentResponse> :=
    Response(400, Error("Request body is required", "Payment request data must be provided in the request body"))
  const INVALID_FORMAT: Response<PaymentResponse> :=
    Response(400, Error("Invalid request format", "Unable to parse payment request data"))
  const INVALID_PAYMENT: Response<PaymentResponse> :=
    Response(400, Error("Invalid payment data", "Product name and amount are required"))
  const SESSION_FAILED: Response<PaymentResponse> :=
    Response(500, Error("Payment session creation failed", "Unable to create Stripe checkout session"))
  const INTERNAL_ERROR: Response<PaymentResponse> :=
    Response(500, Error("Internal server error", "An unexpected error occurred while processing your payment request"))

  /** One product line of the checkout session. */
  datatype LineItem = LineItem(name: string, amountInPence: Int32, quantity: Int32)

  /**
   * The arguments of the gateway call. Payment mode, the GBP currency and
   * card payment are fixed by the handler and so are not fields.
   */
  datatype CheckoutCall = CheckoutCall(
    successUrl: string,
    cancelUrl: string,
    lineItems: seq<LineItem>,
    metadata: map<string, string>)

  /** The gateway threw, or it returned a checkout URL (None for null). */
  datatype GatewayReply = GatewayThrew | CheckoutUrl(url: Option<string>)

  /** The only checks the handler makes: a product name and a positive amount. */
  predicate ValidPaymentRequest(p: PaymentRequest) {
    p.productName != "" && p.amountInPence > 0
  }

  /** The gateway call for a request: its redirect URLs or the example.com ones, its line, its metadata or none. */
  function CheckoutCallFor(p: PaymentRequest): (c: CheckoutCall)
    ensures |c.lineItems| == 1 && c.lineItems[0] == LineItem(p.productName, p.amountInPence, p.quantity)
    ensures c.successUrl == DEFAULT_SUCCESS_URL <==> p.successUrl.None? || p.successUrl == Some(DEFAULT_SUCCESS_URL)
    ensures c.cancelUrl == DEFAULT_CANCEL_URL <==> p.cancelUrl.None? || p.cancelUrl == Some(DEFAULT_CANCEL_URL)
    ensures p.successUrl.Some? ==> c.successUrl == p.successUrl.value
    ensures p.cancelUrl.Some? ==> c.cancelUrl == p.cancelUrl.value
    ensures c.metadata == (if p.metadata.Some? then p.metadata.value else map[])
  {
    CheckoutCall(
      p.successUrl.GetOr(DEFAULT_SUCCESS_URL),
      p.cancelUrl.GetOr(DEFAULT_CANCEL_URL),
      [LineItem(p.productName, p.amountInPence, p.quantity)],
      p.metadata.GetOr(map[]))
  }

  /** Handle one request to the payment endpoint. */
  function CreatePayment(httpMethod: string, body: RequestBody<PaymentRequest>, gateway: CheckoutCall -> GatewayReply)
    : (r: Response<PaymentResponse>)
    ensures IsPreflight(httpMethod) ==> r == Response(200, NoContent)
    ensures r.status == 200 || r.status == 400 || r.status == 500
    ensures r.status == 200 && !IsPreflight(httpMethod) ==>
      && body.Parsed? && ValidPaymentRequest(body.value)
      && r.body.Ok? && r.body.value.success && r.body.value.sessionId.None? && r.body.value.errorMessage.None?
      && r.body.value.checkoutUrl.Some? && r.body.value.checkoutUrl.value != ""
      && gateway(CheckoutCallFor(body.value)) == CheckoutUrl(r.body.value.checkoutUrl)
  {
    if IsPreflight(httpMethod) then Response(200, NoContent)
    else
      match body
      case EmptyBody => BODY_REQUIRED
      case MalformedJson(message) => Response(400, Error("Invalid JSON format", message))
      case NullJson => INVALID_FORMAT
      case Parsed(p) =>
        if !ValidPaymentRequest(p) then INVALID_PAYMENT
        else
          match gateway(CheckoutCallFor(p))
          case GatewayThrew => INTERNAL_ERROR
          case CheckoutUrl(url) =>
            if url.None? || url.value == "" then SESSION_FAILED
            else Response(200, Ok(PaymentResponse(true, url, None, None)))
  }

  // ----------------------------------------------------------- lemmas

  /** A preflight request is answered without reading the body or calling the gateway. */
  lemma PreflightIgnoresBody(httpMethod: string, b1: RequestBody<PaymentRequest>, b2: RequestBody<PaymentRequest>,
                             g1: CheckoutCall -> GatewayReply, g2: CheckoutCall -> GatewayReply)
    requires IsPreflight(httpMethod)
    ensures CreatePayment(httpMethod, b1, g1) == CreatePayment(httpMethod, b2, g2)
  {
  }

  /** An empty, unreadable or null body is a 400 with its own message. */
  lemma BodyErrors(httpMethod: string, g: CheckoutCall -> GatewayReply, message: string)
    requires !IsPreflight(httpMethod)
    ensures CreatePayment(httpMethod, EmptyBody, g) == BODY_REQUIRED
    ensures CreatePayment(httpMethod, NullJson, g) == INVALID_FORMAT
    ensures CreatePayment(httpMethod, MalformedJson(message), g) == Response(400, Error("Invalid JSON format", message))
  {
  }

  /**
   * A request without a product name or with an amount that is not positive
   * is a 400 "Invalid payment data", whatever the gateway would have said:
   * the gateway is not called.
   */
  lemma RejectedBeforeGateway(httpMethod: string, p: PaymentRequest,
                              g1: CheckoutCall -> GatewayReply, g2: CheckoutCall -> GatewayReply)
    requires !IsPreflight(httpMethod)
    ensures !ValidPaymentRequest(p) ==> CreatePayment(httpMethod, Parsed(p), g1) == INVALID_PAYMENT
    ensures !ValidPaymentRequest(p) <==> CreatePayment(httpMethod, Parsed(p), g1) == CreatePayment(httpMethod, Parsed(p), g2) == INVALID_PAYMENT
  {
    if ValidPaymentRequest(p) {
      assert CreatePayment(httpMethod, Parsed(p), g1) != INVALID_PAYMENT;
    }
  }

  /**
   * Only the product name and the amount are checked: any quantity, zero and
   * negative ones included, is passed to the gateway as it is.
   */
  lemma QuantityUnchecked(p: PaymentRequest, q: Int32)
    ensures ValidPaymentRequest(p.(quantity := q)) == ValidPaymentRequest(p)
    ensures CheckoutCallFor(p.(quantity := q)).lineItems == [LineItem(p.productName, p.amountInPence, q)]
  {
  }

  /** The currency and the customer email are not read: the session is always in GBP. */
  lemma CurrencyAndEmailIgnored(httpMethod: string, p: PaymentRequest, currency: string, email: Option<string>,
                                g: CheckoutCall -> GatewayReply)
    ensures CreatePayment(httpMethod, Parsed(p.(currency := currency, customerEmail := email)), g)
         == CreatePayment(httpMethod, Parsed(p), g)
  {
    assert CheckoutCallFor(p.(currency := currency, customerEmail := email)) == CheckoutCallFor(p);
  }

  /**
   * For a valid request the answer is decided by the gateway alone: 200 with
   * its URL when the URL is non-empty, 500 when it is null or empty or the
   * gateway throws.
   */
  lemma GatewayDecides(httpMethod: string, p: PaymentRequest, g: CheckoutCall -> GatewayReply)
    requires !IsPreflight(httpMethod) && ValidPaymentRequest(p)
    ensures
      var r := CreatePayment(httpMethod, Parsed(p), g);
      var reply := g(CheckoutCallFor(p));
      && (r.status == 200 <==> reply.CheckoutUrl? && reply.url.Some? && reply.url.value != "")
      && (r.status == 200 ==> r == Response(200, Ok(PaymentResponse(true, reply.url, None, None))))
      && (reply == GatewayThrew ==> r == INTERNAL_ERROR)
      && (reply == CheckoutUrl(None) || reply == CheckoutUrl(Some("")) ==> r == SESSION_FAILED)
  {
  }

  /** The request of an empty JSON object has no product name and is rejected. */
  lemma EmptyObjectRejected(g: CheckoutCall -> GatewayReply)
    ensures CreatePayment("POST", Parsed(DefaultPaymentRequest()), g) == INVALID_PAYMENT
  {
    assert Lower("POST") == "post";
  }
}
