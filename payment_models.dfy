/** The request and record shapes of the payment and reservation endpoints, with their initialisers. */
module PaymentModels {
  import opened Wrappers
  import opened Text
  import opened Clock

  /**
   * The body of a payment request. `ProductName` is declared non-null with
   * initialiser ""; a JSON null there is represented as "" (the handler only
   * tests it with `IsNullOrEmpty`). The range annotations on the two amounts
   * are declarations only: nothing enforces them.
   */
  datatype PaymentRequest = PaymentRequest(
    productName: string,
    amountInPence: Int32,
    quantity: Int32,
    currency: string,
    customerEmail: Option<string>,
    successUrl: Option<string>,
    cancelUrl: Option<string>,
    metadata: Option<map<string, string>>)

  /** What the deserialiser produces for `{}`: every property at its initialiser. */
  function DefaultPaymentRequest(): (p: PaymentRequest)
    ensures p.productName == "" && p.currency == "GBP"
    ensures p.amountInPence == 0 && p.quantity == 0
    ensures p.customerEmail == None && p.successUrl == None && p.cancelUrl == None && p.metadata == None
  {
    PaymentRequest("", 0, 0, "GBP", None, None, None, None)
  }

  datatype PaymentResponse = PaymentResponse(
    success: bool,
    checkoutUrl: Option<string>,
    sessionId: Option<string>,
    errorMessage: Option<string>)

  /** The body of a reservation-success request: every field may be absent, the integers included. */
  datatype ReservationSuccessRequest = ReservationSuccessRequest(
    firstName: Option<string>,
    lastName: Option<string>,
    reservationType: Option<string>,
    reservationDate: Option<string>,
    reservationTime: Option<string>,
    partySize: Option<Int32>,
    notes: Option<string>,
    depositAmount: Option<Int32>,
    stripeSessionId: Option<string>)

  /** What the deserialiser produces for `{}`. */
  function EmptyReservationRequest(): (r: ReservationSuccessRequest)
    ensures r.firstName == None && r.lastName == None && r.reservationType == None
    ensures r.reservationDate == None && r.reservationTime == None && r.partySize == None
    ensures r.notes == None && r.depositAmount == None && r.stripeSessionId == None
  {
    ReservationSuccessRequest(None, None, None, None, None, None, None, None, None)
  }

  /** The canonical reservation record; `stripeSessionId` is its only optional field. */
  datatype ReservationDetails = ReservationDetails(
    firstName: string,
    lastName: string,
    reservationType: string,
    reservationTypeLabel: string,
    reservationDate: string,
    reservationTime: string,
    partySize: Int32,
    notes: string,
    depositAmount: Int32,
    paymentStatus: string,
    stripeSessionId: Option<string>,
    createdAt: Instant)

  /** `new ReservationDetails()`: strings "", integers 0, no session id, `DateTime.MinValue`. */
  function NewReservationDetails(): (d: ReservationDetails)
    ensures d.firstName == "" && d.lastName == "" && d.reservationType == "" && d.reservationTypeLabel == ""
    ensures d.reservationDate == "" && d.reservationTime == "" && d.notes == "" && d.paymentStatus == ""
    ensures d.partySize == 0 && d.depositAmount == 0 && d.stripeSessionId == None
  {
    ReservationDetails("", "", "", "", "", "", 0, "", 0, "", None, DateTime(1, 1, 1, 0, 0, 0))
  }
}
