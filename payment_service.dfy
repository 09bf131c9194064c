/**
 * The browser client's payment service: the reservation fee formula and the
 * mapping from an HTTP reply to the result the pages see.
 *
 * The reply is a value: the fetch threw, or it answered with a status that
 * is or is not OK and a body that `response.json()` read (None when reading
 * it threw).
 */
module PaymentService {
  import opened Wrappers
  import opened Json
  import opened Http
  import PaymentEndpoint
  import PaymentModels

  const BASE_FEE := 1500
  const PER_EXTRA_GUEST := 500

  /** The reservation fee in pence: a base fee and a sum for each guest beyond two. */
  function CalculateReservationFee(partySize: int): (fee: int)
    ensures fee >= BASE_FEE
    ensures partySize <= 2 ==> fee == BASE_FEE
    ensures (fee - BASE_FEE) % PER_EXTRA_GUEST == 0
  {
    var additionalPeople := if partySize - 2 > 0 then partySize - 2 else 0;
    BASE_FEE + additionalPeople * PER_EXTRA_GUEST
  }

  /** A larger party never pays less. */
  lemma FeeMonotone(a: int, b: int)
    requires a <= b
    ensures CalculateReservationFee(a) <= CalculateReservationFee(b)
  {
  }

  /** Each guest beyond two adds exactly one per-guest sum. */
  lemma FeePerExtraGuest(n: int)
    requires n >= 2
    ensures CalculateReservationFee(n + 1) == CalculateReservationFee(n) + PER_EXTRA_GUEST
  {
  }

  /** From two guests on, the party size can be read back from the fee. */
  lemma FeeDeterminesPartySize(n: int)
    requires n >= 2
    ensures (CalculateReservationFee(n) - BASE_FEE) / PER_EXTRA_GUEST + 2 == n
  {
  }

  // ------------------------------------------------- reply mapping

  const PAYMENT_FAILED := "Payment creation failed"
  const PAYMENT_NETWORK_ERROR := "Network error: Unable to process payment request"
  const SAVE_FAILED := "Failed to save reservation"
  const SAVE_NETWORK_ERROR := "Network error: Unable to save reservation"

  datatype ServiceReply = FetchThrew | Reply(ok: bool, body: Option<JsonValue>)

  /** What the page receives: a failure with its message, or the server's data as it came. */
  datatype ServiceResult = Failure(errorMessage: JsonValue) | Passed(data: JsonValue)

  /** JavaScript's `a || b`: the first operand when it is truthy, else the second. */
  function Or(a: JsonValue, b: JsonValue): (r: JsonValue)
    ensures Truthy(a) ==> r == a
    ensures !Truthy(a) ==> r == b
  {
    if Truthy(a) then a else b
  }

  /** `data.details || data.error || fallback`, on a body that is not null or undefined. */
  function ErrorMessage(data: JsonValue, fallback: string): (m: JsonValue)
    requires fallback != ""
    ensures Truthy(m)
    ensures m == Get(data, "details") || m == Get(data, "error") || m == Str(fallback)
  {
    Or(Get(data, "details"), Or(Get(data, "error"), Str(fallback)))
  }

  /**
   * The shared shape of both service calls: an OK reply passes its data on;
   * a reply that is not OK becomes a failure carrying the error message; a
   * thrown fetch, an unreadable body, or a null error body (whose property
   * access throws) becomes a failure carrying the network message.
   */
  function MapReply(reply: ServiceReply, fallback: string, networkMessage: string): (r: ServiceResult)
    requires fallback != ""
    ensures reply.FetchThrew? || reply.body.None? ==> r == Failure(Str(networkMessage))
    ensures reply.Reply? && reply.ok && reply.body.Some? ==> r == Passed(reply.body.value)
    ensures r.Failure? <==> reply.FetchThrew? || reply.body.None? || !reply.ok
    ensures reply.Reply? && !reply.ok && reply.body.Some? && !AccessThrows(reply.body.value)
            ==> r == Failure(ErrorMessage(reply.body.value, fallback))
    ensures reply.Reply? && !reply.ok && reply.body.Some? && AccessThrows(reply.body.value)
            ==> r == Failure(Str(networkMessage))
  {
    match reply
    case FetchThrew => Failure(Str(networkMessage))
    case Reply(ok, body) =>
      if body.None? then Failure(Str(networkMessage))
      else if ok then Passed(body.value)
      else if AccessThrows(body.value) then Failure(Str(networkMessage))
      else Failure(ErrorMessage(body.value, fallback))
  }

  function CreatePaymentSession(reply: ServiceReply): (r: ServiceResult)
    ensures r.Failure? ==> Truthy(r.errorMessage)
    ensures reply.Reply? && reply.ok && reply.body.Some? ==> r == Passed(reply.body.value)
    ensures reply.Reply? && !reply.ok && reply.body.Some? && !AccessThrows(reply.body.value)
            ==> r == Failure(ErrorMessage(reply.body.value, PAYMENT_FAILED))
    ensures reply.FetchThrew? || reply.body.None? || (!reply.ok && AccessThrows(reply.body.value))
            ==> r == Failure(Str(PAYMENT_NETWORK_ERROR))
  {
    MapReply(reply, PAYMENT_FAILED, PAYMENT_NETWORK_ERROR)
  }

  function SaveReservation(reply: ServiceReply): (r: ServiceResult)
    ensures r.Failure? ==> Truthy(r.errorMessage)
    ensures reply.Reply? && reply.ok && reply.body.Some? ==> r == Passed(reply.body.value)
    ensures reply.Reply? && !reply.ok && reply.body.Some? && !AccessThrows(reply.body.value)
            ==> r == Failure(ErrorMessage(reply.body.value, SAVE_FAILED))
    ensures reply.FetchThrew? || reply.body.None? || (!reply.ok && AccessThrows(reply.body.value))
            ==> r == Failure(Str(SAVE_NETWORK_ERROR))
  {
    MapReply(reply, SAVE_FAILED, SAVE_NETWORK_ERROR)
  }

  /**
   * The error message of a reply that is not OK: the details when they are a
   * non-empty string, else the error when it is one, else the fixed message.
   */
  lemma ErrorMessagePrecedence(data: JsonValue, fallback: string)
    requires fallback != "" && !AccessThrows(data)
    ensures Get(data, "details").Str? && Get(data, "details").s != "" ==> ErrorMessage(data, fallback) == Get(data, "details")
    ensures !Truthy(Get(data, "details")) && Get(data, "error").Str? && Get(data, "error").s != ""
            ==> ErrorMessage(data, fallback) == Get(data, "error")
    ensures !Truthy(Get(data, "details")) && !Truthy(Get(data, "error")) ==> ErrorMessage(data, fallback) == Str(fallback)
  {
  }

  /** A body without either field, or with both empty, gives each call its own fixed message. */
  lemma FixedMessages(data: JsonValue)
    requires data == Obj(map[]) || data == Obj(map["error" := Str(""), "details" := Str("")])
    ensures CreatePaymentSession(Reply(false, Some(data))) == Failure(Str(PAYMENT_FAILED))
    ensures SaveReservation(Reply(false, Some(data))) == Failure(Str(SAVE_FAILED))
  {
  }

  /** A thrown fetch gives each call its own network message. */
  lemma NetworkMessages()
    ensures CreatePaymentSession(FetchThrew) == Failure(Str(PAYMENT_NETWORK_ERROR))
    ensures SaveReservation(FetchThrew) == Failure(Str(SAVE_NETWORK_ERROR))
    ensures CreatePaymentSession(Reply(false, Some(Null))) == Failure(Str(PAYMENT_NETWORK_ERROR))
  {
  }

  // --------------------------------------------- server to client

  /** The JSON body the server writes for an error answer (its timestamp is any string). */
  function ErrorBodyJson(error: string, details: string, timestamp: string): (j: JsonValue)
    ensures Get(j, "error") == Str(error) && Get(j, "details") == Str(details)
  {
    Obj(map["error" := Str(error), "details" := Str(details), "timestamp" := Str(timestamp)])
  }

  /**
   * Every error the payment endpoint answers reaches the page as its details
   * text, when that text is not empty; every non-200 answer is not OK.
   */
  lemma PaymentErrorsReachClient(httpMethod: string, body: RequestBody<PaymentModels.PaymentRequest>,
                                 gateway: PaymentEndpoint.CheckoutCall -> PaymentEndpoint.GatewayReply, timestamp: string)
    ensures
      var r := PaymentEndpoint.CreatePayment(httpMethod, body, gateway);
      r.body.Error? && r.body.details != "" ==>
        && r.status != 200
        && CreatePaymentSession(Reply(false, Some(ErrorBodyJson(r.body.error, r.body.details, timestamp))))
           == Failure(Str(r.body.details))
  {
  }
}
