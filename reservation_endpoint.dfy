/**
 * The reservation-success handler. It turns a reservation request, and the
 * payment session it may name, into one reservation record. Then it checks
 * the record's required fields, looks for an earlier row with the same
 * duplicate key, and appends one twelve-column row to the reservations
 * sheet unless it finds one.
 *
 * The payment gateway, the integer parser, the sheet's row search, the
 * clock and the id generator are the fields of an `Environment` value.
 */
module ReservationEndpoint {
  import opened Wrappers
  import opened Text
  import opened Clock
  import opened Http
  import opened PaymentModels

  const PAID := "Paid"
  const NO_DEPOSIT := "No Deposit Required"
  const DUPLICATE_ID := "DUPLICATE"

  const REGULAR_LABEL := "Regular Dining"
  const AYCE_LABEL := "All You Can Eat (AYCE)"
  const CHRISTMAS_LABEL := "Christmas Menu (inc Christmas Day)"

  const SAVED_MESSAGE := "Reservation saved successfully"
  const DUPLICATE_MESSAGE := "Reservation details retrieved (duplicate payment session)"

  // ------------------------------------------------------------ labels

  /** The display label of a reservation type, chosen case-insensitively from a fixed table. */
  function GetReservationTypeLabel(reservationType: string): (r: string)
    ensures r == REGULAR_LABEL || r == AYCE_LABEL || r == CHRISTMAS_LABEL
    ensures r == AYCE_LABEL <==> Lower(reservationType) == "ayce"
    ensures r == CHRISTMAS_LABEL <==> Lower(reservationType) == "christmas"
    ensures r == REGULAR_LABEL <==> Lower(reservationType) != "ayce" && Lower(reservationType) != "christmas"
  {
    var key := Lower(reservationType);
    if key == "regular" then REGULAR_LABEL
    else if key == "ayce" then AYCE_LABEL
    else if key == "christmas" then CHRISTMAS_LABEL
    else REGULAR_LABEL
  }

  /** Spellings that differ only in letter case get the same label. */
  lemma LabelIgnoresCase(a: string, b: string)
    requires Lower(a) == Lower(b)
    ensures GetReservationTypeLabel(a) == GetReservationTypeLabel(b)
  {
  }

  lemma LabelExamples()
    ensures GetReservationTypeLabel("AYCE") == AYCE_LABEL
    ensures GetReservationTypeLabel("Ayce") == AYCE_LABEL
    ensures GetReservationTypeLabel("ayce") == AYCE_LABEL
    ensures GetReservationTypeLabel("Christmas") == CHRISTMAS_LABEL
    ensures GetReservationTypeLabel("unknown") == REGULAR_LABEL
  {
    assert Lower("AYCE") == "ayce";
    assert Lower("Ayce") == "ayce";
    assert Lower("ayce") == "ayce";
    assert Lower("Christmas") == "christmas";
    assert Lower("unknown") == "unknown";
  }

  // ----------------------------------------------- building the record

  /** `request.DepositAmount > 0`: false when the amount is absent. */
  predicate DepositPositive(deposit: Option<Int32>) {
    deposit.Some? && deposit.value > 0
  }

  /** Build a record from the request alone, defaulting each absent field. */
  function CreateReservationDetailsFromRequest(request: ReservationSuccessRequest, now: Instant): (d: ReservationDetails)
    ensures d.reservationTypeLabel == GetReservationTypeLabel(d.reservationType)
    ensures d.paymentStatus == PAID <==> DepositPositive(request.depositAmount)
    ensures d.paymentStatus == PAID || d.paymentStatus == NO_DEPOSIT
    ensures d.stripeSessionId == request.stripeSessionId && d.createdAt == now
  {
    var reservationType := request.reservationType.GetOr("regular");
    ReservationDetails(
      firstName := request.firstName.GetOr("Unknown"),
      lastName := request.lastName.GetOr("Guest"),
      reservationType := reservationType,
      reservationTypeLabel := GetReservationTypeLabel(reservationType),
      reservationDate := request.reservationDate.GetOr(FormatDate(now)),
      reservationTime := request.reservationTime.GetOr("Not specified"),
      partySize := request.partySize.GetOr(2),
      notes := request.notes.GetOr(""),
      depositAmount := request.depositAmount.GetOr(0),
      paymentStatus := if DepositPositive(request.depositAmount) then PAID else NO_DEPOSIT,
      stripeSessionId := request.stripeSessionId,
      createdAt := now)
  }

  /** The request that carries every field of a record. */
  function AsRequest(d: ReservationDetails): (r: ReservationSuccessRequest)
    ensures r.firstName == Some(d.firstName) && r.partySize == Some(d.partySize)
  {
    ReservationSuccessRequest(
      Some(d.firstName), Some(d.lastName), Some(d.reservationType), Some(d.reservationDate),
      Some(d.reservationTime), Some(d.partySize), Some(d.notes), Some(d.depositAmount), d.stripeSessionId)
  }

  /**
   * Present fields are copied verbatim: a record whose label and status are
   * the derived ones is rebuilt unchanged from the request that carries it.
   */
  lemma FromRequestRoundTrip(d: ReservationDetails)
    requires d.reservationTypeLabel == GetReservationTypeLabel(d.reservationType)
    requires d.paymentStatus == (if d.depositAmount > 0 then PAID else NO_DEPOSIT)
    ensures CreateReservationDetailsFromRequest(AsRequest(d), d.createdAt) == d
  {
  }

  /** Absent fields get the documented defaults. */
  lemma FromEmptyRequest(now: Instant)
    ensures CreateReservationDetailsFromRequest(EmptyReservationRequest(), now)
         == ReservationDetails("Unknown", "Guest", "regular", REGULAR_LABEL, FormatDate(now),
                               "Not specified", 2, "", 0, NO_DEPOSIT, None, now)
  {
    assert Lower("regular") == "regular";
  }

  /** The value of `key` in the session metadata, or `fallback` (`GetValueOrDefault`). */
  function MetadataValue(metadata: map<string, string>, key: string, fallback: string): string {
    if key in metadata then metadata[key] else fallback
  }

  /** The text the party size is parsed from when the metadata has no "partySize". */
  function PartySizeText(partySize: Option<Int32>): string {
    match partySize
    case Some(n) => IntToString(n)
    case None => "2"
  }

  /**
   * Build a record from the session metadata, falling back field by field to
   * the request and then to the defaults. The record is marked paid.
   */
  function CreateReservationDetailsFromMetadata(
    request: ReservationSuccessRequest, metadata: map<string, string>, amountTotal: Option<Int64>,
    now: Instant, parseInt: string -> Option<Int32>): (d: ReservationDetails)
    ensures d.reservationTypeLabel == GetReservationTypeLabel(d.reservationType)
    ensures d.paymentStatus == PAID && d.stripeSessionId == request.stripeSessionId && d.createdAt == now
  {
    var reservationType := MetadataValue(metadata, "reservationType", request.reservationType.GetOr("regular"));
    var deposit: int := match amountTotal
      case Some(total) => total
      case None => request.depositAmount.GetOr(0);
    ReservationDetails(
      firstName := MetadataValue(metadata, "firstName", request.firstName.GetOr("Unknown")),
      lastName := MetadataValue(metadata, "lastName", request.lastName.GetOr("Guest")),
      reservationType := reservationType,
      reservationTypeLabel := GetReservationTypeLabel(reservationType),
      reservationDate := MetadataValue(metadata, "reservationDate", request.reservationDate.GetOr(FormatDate(now))),
      reservationTime := MetadataValue(metadata, "reservationTime", request.reservationTime.GetOr("Not specified")),
      partySize := parseInt(MetadataValue(metadata, "partySize", PartySizeText(request.partySize))).GetOr(2),
      notes := MetadataValue(metadata, "notes", request.notes.GetOr("")),
      depositAmount := ToInt32(deposit),
      paymentStatus := PAID,
      stripeSessionId := request.stripeSessionId,
      createdAt := now)
  }

  /**
   * Metadata wins field by field; a field the metadata lacks is the one the
   * request path would have produced. The deposit is the session total, cast
   * to 32 bits, else the request's deposit, else 0.
   */
  lemma MetadataPrecedence(
    request: ReservationSuccessRequest, metadata: map<string, string>, amountTotal: Option<Int64>,
    now: Instant, parseInt: string -> Option<Int32>)
    ensures
      var d := CreateReservationDetailsFromMetadata(request, metadata, amountTotal, now, parseInt);
      var fallback := CreateReservationDetailsFromRequest(request, now);
      && d.firstName == (if "firstName" in metadata then metadata["firstName"] else fallback.firstName)
      && d.lastName == (if "lastName" in metadata then metadata["lastName"] else fallback.lastName)
      && d.reservationType == (if "reservationType" in metadata then metadata["reservationType"] else fallback.reservationType)
      && d.reservationDate == (if "reservationDate" in metadata then metadata["reservationDate"] else fallback.reservationDate)
      && d.reservationTime == (if "reservationTime" in metadata then metadata["reservationTime"] else fallback.reservationTime)
      && d.notes == (if "notes" in metadata then metadata["notes"] else fallback.notes)
      && d.partySize == (if "partySize" in metadata then parseInt(metadata["partySize"]).GetOr(2) else parseInt(PartySizeText(request.partySize)).GetOr(2))
      && d.depositAmount == (if amountTotal.Some? then ToInt32(amountTotal.value) else fallback.depositAmount)
  {
  }

  /** The integer parser reads back what `ToString()` writes. */
  ghost predicate ReadsBackIntegers(parseInt: string -> Option<Int32>) {
    forall n: Int32 :: parseInt(IntToString(n)) == Some(n)
  }

  /** With a parser that reads back `ToString()`, a party size the metadata lacks is the request's, or 2. */
  lemma PartySizeFallsBack(
    request: ReservationSuccessRequest, metadata: map<string, string>, amountTotal: Option<Int64>,
    now: Instant, parseInt: string -> Option<Int32>)
    requires ReadsBackIntegers(parseInt)
    requires "partySize" !in metadata
    ensures CreateReservationDetailsFromMetadata(request, metadata, amountTotal, now, parseInt).partySize
         == CreateReservationDetailsFromRequest(request, now).partySize
  {
    match request.partySize
    case Some(n) =>
      assert parseInt(IntToString(n)) == Some(n);
    case None =>
      assert IntToString(2) == "2";
      assert parseInt(IntToString(2)) == Some(2);
  }

  /**
   * Session metadata that holds no keys gives the request-path record,
   * marked paid and carrying the session total when there is one.
   */
  lemma EmptyMetadataMatchesRequestPath(
    request: ReservationSuccessRequest, amountTotal: Option<Int64>, now: Instant, parseInt: string -> Option<Int32>)
    requires ReadsBackIntegers(parseInt)
    ensures
      var fallback := CreateReservationDetailsFromRequest(request, now);
      CreateReservationDetailsFromMetadata(request, map[], amountTotal, now, parseInt)
        == fallback.(paymentStatus := PAID,
                     depositAmount := if amountTotal.Some? then ToInt32(amountTotal.value) else fallback.depositAmount)
  {
    PartySizeFallsBack(request, map[], amountTotal, now, parseInt);
  }

  // ------------------------------------------------------ environment

  datatype SessionDetails = SessionDetails(metadata: Option<map<string, string>>, amountTotal: Option<Int64>)

  /** The gateway's answer to a session lookup: it threw, or it returned a session or null. */
  datatype SessionLookup = LookupThrew | LookupReturned(session: Option<SessionDetails>)

  /**
   * Everything the handler consults outside itself. `rowExists` answers the
   * sheet's "is this value in some row" query (its scan is not modelled); it
   * returns None when the query throws. `appendSucceeds` says whether the
   * append of the next row succeeds. `newId` stands for `Guid.NewGuid()`.
   */
  datatype Environment = Environment(
    lookupSession: string -> SessionLookup,
    parseInt: string -> Option<Int32>,
    rowExists: (seq<seq<string>>, string) -> Option<bool>,
    appendSucceeds: bool,
    now: Instant,
    newId: string)

  // ------------------------------------------- choosing the construction

  /** The request names a payment session (`!string.IsNullOrEmpty(StripeSessionId)`). */
  predicate HasSessionId(request: ReservationSuccessRequest) {
    request.stripeSessionId.Some? && request.stripeSessionId.value != ""
  }

  /**
   * The record the handler goes on with. Without a session id it is the
   * request-path record marked "No Deposit Required". With one, it is built
   * from the metadata when the lookup returns some, from the request marked
   * paid when the lookup returns no session or no metadata, and from the
   * request unchanged when the lookup throws.
   */
  function ResolveReservationDetails(request: ReservationSuccessRequest, env: Environment): (d: ReservationDetails)
    ensures d.reservationTypeLabel == GetReservationTypeLabel(d.reservationType)
    ensures d.paymentStatus == PAID || d.paymentStatus == NO_DEPOSIT
    ensures d.stripeSessionId == request.stripeSessionId && d.createdAt == env.now
  {
    if !HasSessionId(request) then
      CreateReservationDetailsFromRequest(request, env.now).(paymentStatus := NO_DEPOSIT)
    else
      match env.lookupSession(request.stripeSessionId.value)
      case LookupThrew =>
        CreateReservationDetailsFromRequest(request, env.now)
      case LookupReturned(Some(SessionDetails(Some(metadata), amountTotal))) =>
        CreateReservationDetailsFromMetadata(request, metadata, amountTotal, env.now, env.parseInt)
      case LookupReturned(_) =>
        CreateReservationDetailsFromRequest(request, env.now).(paymentStatus := PAID, stripeSessionId := request.stripeSessionId)
  }

  /** Without a session id the record is never marked paid, whatever deposit the request names. */
  lemma DirectReservationNotPaid(request: ReservationSuccessRequest, env: Environment)
    requires !HasSessionId(request)
    ensures
      var d := ResolveReservationDetails(request, env);
      && d.paymentStatus == NO_DEPOSIT
      && d == CreateReservationDetailsFromRequest(request, env.now).(paymentStatus := NO_DEPOSIT)
  {
  }

  /** With a session id and a lookup that did not throw, the record is paid and carries that id. */
  lemma SessionReservationPaid(request: ReservationSuccessRequest, env: Environment)
    requires HasSessionId(request)
    requires !env.lookupSession(request.stripeSessionId.value).LookupThrew?
    ensures ResolveReservationDetails(request, env).paymentStatus == PAID
    ensures ResolveReservationDetails(request, env).stripeSessionId == request.stripeSessionId
  {
  }

  /**
   * When the lookup throws, the record is the request-path record: it is
   * paid only if the request's deposit is positive, and it still carries
   * the session id.
   */
  lemma LookupFailureUsesRequest(request: ReservationSuccessRequest, env: Environment)
    requires HasSessionId(request)
    requires env.lookupSession(request.stripeSessionId.value).LookupThrew?
    ensures
      var d := ResolveReservationDetails(request, env);
      && d == CreateReservationDetailsFromRequest(request, env.now)
      && (d.paymentStatus == PAID <==> DepositPositive(request.depositAmount))
      && d.stripeSessionId == request.stripeSessionId
  {
  }

  /** A missing session or metadata gives the request-path record, marked paid. */
  lemma NullSessionUsesRequest(request: ReservationSuccessRequest, env: Environment)
    requires HasSessionId(request)
    requires env.lookupSession(request.stripeSessionId.value) == LookupReturned(None)
          || (env.lookupSession(request.stripeSessionId.value).LookupReturned?
              && env.lookupSession(request.stripeSessionId.value).session.Some?
              && env.lookupSession(request.stripeSessionId.value).session.value.metadata == None)
    ensures ResolveReservationDetails(request, env)
         == CreateReservationDetailsFromRequest(request, env.now).(paymentStatus := PAID)
  {
  }

  /** A paid record always carries a non-empty session id. */
  lemma PaidImpliesSession(request: ReservationSuccessRequest, env: Environment)
    ensures ResolveReservationDetails(request, env).paymentStatus == PAID ==> SessionKey(ResolveReservationDetails(request, env)).Some?
  {
  }

  // ------------------------------------------------- required fields

  /** First name, last name, date or time is empty. */
  predicate MissingRequired(d: ReservationDetails) {
    d.firstName == "" || d.lastName == "" || d.reservationDate == "" || d.reservationTime == ""
  }

  /**
   * Off the metadata path, a required field is missing exactly when the
   * request gave it as an explicit empty string: the defaults are never empty.
   */
  lemma MissingRequiredIffExplicitEmpty(request: ReservationSuccessRequest, env: Environment)
    requires !HasSessionId(request) || !env.lookupSession(request.stripeSessionId.value).LookupReturned?
          || env.lookupSession(request.stripeSessionId.value).session.None?
          || env.lookupSession(request.stripeSessionId.value).session.value.metadata.None?
    ensures MissingRequired(ResolveReservationDetails(request, env))
        <==> (request.firstName == Some("") || request.lastName == Some("")
              || request.reservationDate == Some("") || request.reservationTime == Some(""))
  {
    var d := CreateReservationDetailsFromRequest(request, env.now);
    RequestRecordMissingIff(request, env.now);
    var r := ResolveReservationDetails(request, env);
    assert r == d || r == d.(paymentStatus := NO_DEPOSIT) || r == d.(paymentStatus := PAID, stripeSessionId := request.stripeSessionId);
  }

  /** On the request path, a required field is missing exactly when the request gave it as "". */
  lemma RequestRecordMissingIff(request: ReservationSuccessRequest, now: Instant)
    ensures MissingRequired(CreateReservationDetailsFromRequest(request, now))
        <==> (request.firstName == Some("") || request.lastName == Some("")
              || request.reservationDate == Some("") || request.reservationTime == Some(""))
  {
    assert |FormatDate(now)| == 10;
  }

  // --------------------------------------------------- duplicate check

  /** The session id the duplicate check searches for, when the record has a non-empty one. */
  function SessionKey(d: ReservationDetails): (key: Option<string>)
    ensures key.Some? <==> d.stripeSessionId.Some? && d.stripeSessionId.value != ""
    ensures key.Some? ==> key == d.stripeSessionId
  {
    if d.stripeSessionId.Some? && d.stripeSessionId.value != "" then d.stripeSessionId else None
  }

  /** The composite key of a direct reservation: `First_Last_Date_Time`. */
  function DirectKey(d: ReservationDetails): string {
    d.firstName + "_" + d.lastName + "_" + d.reservationDate + "_" + d.reservationTime
  }

  /**
   * Whether the record is a duplicate of a row already in `rows`: the session
   * id is searched for when there is one, else the composite key. None means
   * the session search threw, which the handler answers with 500; a failed
   * composite-key search counts as "not a duplicate".
   */
  function DuplicateCheck(rows: seq<seq<string>>, d: ReservationDetails,
                          rowExists: (seq<seq<string>>, string) -> Option<bool>): (r: Option<bool>)
    ensures SessionKey(d).None? ==> r == Some(rowExists(rows, DirectKey(d)) == Some(true))
    ensures SessionKey(d).Some? ==> r == rowExists(rows, SessionKey(d).value)
  {
    match SessionKey(d)
    case Some(sessionId) => rowExists(rows, sessionId)
    case None => Some(rowExists(rows, DirectKey(d)) == Some(true))
  }

  /** The record's duplicate key is the request's session id exactly when the request has a non-empty one. */
  lemma DuplicateKeyIsRequestSession(request: ReservationSuccessRequest, env: Environment)
    ensures SessionKey(ResolveReservationDetails(request, env))
         == (if HasSessionId(request) then request.stripeSessionId else None)
  {
  }

  // ------------------------------------------------------- row layout

  predicate NoUnderscore(s: string) {
    forall i :: 0 <= i < |s| ==> s[i] != '_'
  }

  lemma NoUnderscoreConcat(a: string, b: string)
    requires NoUnderscore(a) && NoUnderscore(b)
    ensures NoUnderscore(a + b)
  {
    assert forall i :: |a| <= i < |a + b| ==> (a + b)[i] == b[i - |a|];
  }

  lemma DigitsNoUnderscore(s: string)
    requires AllDigits(s)
    ensures NoUnderscore(s)
  {
    assert forall i :: 0 <= i < |s| ==> IsDigit(s[i]);
  }

  /** The deposit column: pounds and pence (`£12.50`), or `£0.00` for an amount that is not positive. */
  function DepositCell(amount: Int32): (cell: string)
    ensures amount <= 0 ==> cell == "\U{00A3}0.00"
    ensures NoUnderscore(cell)
  {
    if amount > 0 then
      var pounds, pence := NatToString(amount / 100), Pad2(amount % 100);
      DigitsNoUnderscore(pounds);
      DigitsNoUnderscore(pence);
      NoUnderscoreConcat("\U{00A3}", pounds);
      NoUnderscoreConcat("\U{00A3}" + pounds, ".");
      NoUnderscoreConcat("\U{00A3}" + pounds + ".", pence);
      "\U{00A3}" + pounds + "." + pence
    else "\U{00A3}0.00"
  }

  /** A positive deposit cell reads back as the amount in pence. */
  lemma DepositCellRoundTrip(amount: Int32)
    requires amount > 0
    ensures
      var cell := DepositCell(amount);
      && |cell| >= 5 && cell[0] == '\U{00A3}' && cell[|cell| - 3] == '.'
      && AllDigits(cell[1..|cell| - 3]) && AllDigits(cell[|cell| - 2..])
      && DigitsValue(cell[1..|cell| - 3]) * 100 + DigitsValue(cell[|cell| - 2..]) == amount
  {
    var pounds, pence := NatToString(amount / 100), Pad2(amount % 100);
    var cell := DepositCell(amount);
    assert cell == "\U{00A3}" + pounds + "." + pence;
    assert cell[1..|cell| - 3] == pounds;
    assert cell[|cell| - 2..] == pence;
  }

  /** The deposit column reads `£0.00` exactly when the amount is not positive. */
  lemma DepositCellZeroIff(amount: Int32)
    ensures DepositCell(amount) == "\U{00A3}0.00" <==> amount <= 0
  {
    if amount > 0 {
      DepositCellRoundTrip(amount);
    }
  }

  /** The timestamp column, `dd/MM/yyyy HH:mm:ss`. */
  function TimestampCell(t: Instant): string {
    FormatTimestamp(t)
  }

  /** The party-size column, the size's decimal text. */
  function PartySizeCell(n: Int32): string {
    IntToString(n)
  }

  /**
   * The row appended for a record: timestamp, first name, last name, type
   * label, date, time, party size, notes, deposit, payment status, session
   * id (or ""), full name.
   */
  function BuildRow(d: ReservationDetails): (row: seq<string>)
    ensures |row| == 12
  {
    RowOf(d, TimestampCell(d.createdAt), PartySizeCell(d.partySize), DepositCell(d.depositAmount))
  }

  /** The row with its three computed cells given. */
  function RowOf(d: ReservationDetails, stamp: string, size: string, deposit: string): (row: seq<string>)
    ensures |row| == 12
  {
    [ stamp, d.firstName, d.lastName, d.reservationTypeLabel,
      d.reservationDate, d.reservationTime, size, d.notes,
      deposit, d.paymentStatus, d.stripeSessionId.GetOr(""),
      d.firstName + " " + d.lastName ]
  }

  /** Where each cell of a row comes from, column A to L. */
  lemma RowColumns(d: ReservationDetails, stamp: string, size: string, deposit: string)
    ensures
      var row := RowOf(d, stamp, size, deposit);
      && row[0] == stamp && row[1] == d.firstName && row[2] == d.lastName
      && row[3] == d.reservationTypeLabel && row[4] == d.reservationDate && row[5] == d.reservationTime
      && row[6] == size && row[7] == d.notes && row[8] == deposit && row[9] == d.paymentStatus
      && row[10] == d.stripeSessionId.GetOr("") && row[11] == d.firstName + " " + d.lastName
  {
  }

  /** The columns of the row appended for a record. */
  lemma BuildRowColumns(d: ReservationDetails)
    ensures
      var row := BuildRow(d);
      && row[0] == TimestampCell(d.createdAt) && row[1] == d.firstName && row[2] == d.lastName
      && row[3] == d.reservationTypeLabel && row[4] == d.reservationDate && row[5] == d.reservationTime
      && row[6] == PartySizeCell(d.partySize) && row[7] == d.notes && row[8] == DepositCell(d.depositAmount)
      && row[9] == d.paymentStatus && row[10] == d.stripeSessionId.GetOr("") && row[11] == d.firstName + " " + d.lastName
  {
    RowColumns(d, TimestampCell(d.createdAt), PartySizeCell(d.partySize), DepositCell(d.depositAmount));
  }

  /** The guest's names sit in columns B, C and L. */
  lemma RowNameCells(d: ReservationDetails)
    ensures
      var row := BuildRow(d);
      row[1] == d.firstName && row[2] == d.lastName && row[11] == d.firstName + " " + d.lastName
  {
    BuildRowColumns(d);
  }

  /** The type label, date and time sit in columns D, E and F. */
  lemma RowBookingCells(d: ReservationDetails)
    ensures
      var row := BuildRow(d);
      row[3] == d.reservationTypeLabel && row[4] == d.reservationDate && row[5] == d.reservationTime
  {
    BuildRowColumns(d);
  }

  /** The deposit, payment status and session id sit in columns I, J and K. */
  lemma RowPaymentCells(d: ReservationDetails)
    ensures
      var row := BuildRow(d);
      && row[8] == DepositCell(d.depositAmount) && row[9] == d.paymentStatus
      && row[10] == (if d.stripeSessionId.Some? then d.stripeSessionId.value else "")
  {
    BuildRowColumns(d);
  }

  /** A record on the direct path whose label and status come from the handler. */
  predicate DirectRecord(d: ReservationDetails) {
    && SessionKey(d).None?
    && (d.reservationTypeLabel == REGULAR_LABEL || d.reservationTypeLabel == AYCE_LABEL || d.reservationTypeLabel == CHRISTMAS_LABEL)
    && (d.paymentStatus == PAID || d.paymentStatus == NO_DEPOSIT)
  }

  lemma TimestampNoUnderscore(t: Instant)
    ensures NoUnderscore(TimestampCell(t))
  {
    var s := FormatTimestamp(t);
    assert AllStampChars(s);
    assert forall i :: 0 <= i < |s| ==> IsStampChar(s[i]);
  }

  lemma IntegerNoUnderscore(n: Int32)
    ensures NoUnderscore(PartySizeCell(n))
  {
    var s := PartySizeCell(n);
    assert forall i :: 0 <= i < |s| ==> IsDigit(s[i]) || s[i] == '-';
  }

  lemma LabelsNoUnderscore()
    ensures NoUnderscore(REGULAR_LABEL) && NoUnderscore(AYCE_LABEL) && NoUnderscore(CHRISTMAS_LABEL)
    ensures NoUnderscore(PAID) && NoUnderscore(NO_DEPOSIT)
  {
  }

  /** A text without `_` differs from one that has it. */
  lemma DiffersFromUnderscored(s: string, key: string, k: nat)
    requires NoUnderscore(s) && k < |key| && key[k] == '_'
    ensures s != key
  {
  }

  /** The timestamp, party-size and deposit cells hold no `_`, so none is a direct reservation's key. */
  lemma ComputedCellsDifferFromKey(d: ReservationDetails)
    ensures forall j :: j in {0, 6, 8} ==> BuildRow(d)[j] != DirectKey(d)
  {
    var key, row := DirectKey(d), BuildRow(d);
    BuildRowColumns(d);
    var k := |d.firstName|;
    assert key[k] == '_';
    TimestampNoUnderscore(d.createdAt);
    IntegerNoUnderscore(d.partySize);
    DiffersFromUnderscored(row[0], key, k);
    DiffersFromUnderscored(row[6], key, k);
    DiffersFromUnderscored(row[8], key, k);
  }

  /** The label and status cells of a direct reservation hold no `_`, so neither is its key. */
  lemma LabelCellsDifferFromKey(d: ReservationDetails)
    requires DirectRecord(d)
    ensures forall j :: j in {3, 9} ==> BuildRow(d)[j] != DirectKey(d)
  {
    var key, row := DirectKey(d), BuildRow(d);
    BuildRowColumns(d);
    var k := |d.firstName|;
    assert key[k] == '_';
    LabelsNoUnderscore();
    DiffersFromUnderscored(row[3], key, k);
    DiffersFromUnderscored(row[9], key, k);
  }

  /** The copied cells of a direct reservation's row are shorter than its key. */
  lemma CopiedCellsDifferFromKey(d: ReservationDetails)
    requires SessionKey(d).None?
    ensures forall j :: j in {1, 2, 4, 5, 10, 11} ==> BuildRow(d)[j] != DirectKey(d)
  {
    var key, row := DirectKey(d), BuildRow(d);
    BuildRowColumns(d);
    assert |key| == |d.firstName| + |d.lastName| + |d.reservationDate| + |d.reservationTime| + 3;
    assert |row[1]| < |key| && |row[2]| < |key| && |row[4]| < |key| && |row[5]| < |key|;
    assert |row[10]| < |key| && |row[11]| < |key|;
  }

  /**
   * The composite key of a direct reservation is not written into its row:
   * it can only equal a cell if the notes happen to spell it.
   */
  lemma DirectKeyNotInRow(d: ReservationDetails)
    requires DirectRecord(d)
    ensures DirectKey(d) in BuildRow(d) ==> DirectKey(d) == d.notes
  {
    var key, row := DirectKey(d), BuildRow(d);
    if key in row {
      var j :| 0 <= j < |row| && row[j] == key;
      if j != 7 {
        ComputedCellsDifferFromKey(d);
        LabelCellsDifferFromKey(d);
        CopiedCellsDifferFromKey(d);
        assert false;
      }
      BuildRowColumns(d);
    }
  }

  /** One reading of the sheet's row search: the value is a whole cell of some row. */
  function CellLookup(rows: seq<seq<string>>, value: string): Option<bool> {
    Some(exists i, j :: 0 <= i < |rows| && 0 <= j < |rows[i]| && rows[i][j] == value)
  }

  /**
   * Under a whole-cell search, a repeated paid reservation is found: its
   * session id is a cell of the row its first submission appended.
   */
  lemma RepeatSessionDetected(rows: seq<seq<string>>, d: ReservationDetails)
    requires SessionKey(d).Some?
    ensures DuplicateCheck(rows + [BuildRow(d)], d, CellLookup) == Some(true)
  {
    var after := rows + [BuildRow(d)];
    assert after[|rows|][10] == SessionKey(d).value;
  }

  /**
   * Under a whole-cell search, a repeated direct reservation is not found:
   * the composite key is in no row unless some notes spell it.
   */
  lemma RepeatDirectNotDetected(rows: seq<seq<string>>, d: ReservationDetails)
    requires DirectRecord(d)
    requires d.notes != DirectKey(d)
    requires CellLookup(rows, DirectKey(d)) == Some(false)
    ensures DuplicateCheck(rows + [BuildRow(d)], d, CellLookup) == Some(false)
  {
    var after := rows + [BuildRow(d)];
    DirectKeyNotInRow(d);
    forall i, j | 0 <= i < |after| && 0 <= j < |after[i]|
      ensures after[i][j] != DirectKey(d)
    {
      if i < |rows| {
        assert after[i] == rows[i];
      } else {
        assert after[i] == BuildRow(d);
        assert after[i][j] in BuildRow(d);
      }
    }
  }

  /** Another reading of the row search, after its column argument 10: the value is some row's column K. */
  function SessionColumnLookup(rows: seq<seq<string>>, value: string): Option<bool> {
    Some(exists i :: 0 <= i < |rows| && 10 < |rows[i]| && rows[i][10] == value)
  }

  /** Under a column-K search, a repeated paid reservation is found in the row its first submission appended. */
  lemma RepeatSessionDetectedInColumn(rows: seq<seq<string>>, d: ReservationDetails)
    requires SessionKey(d).Some?
    ensures DuplicateCheck(rows + [BuildRow(d)], d, SessionColumnLookup) == Some(true)
  {
    var after := rows + [BuildRow(d)];
    assert after[|rows|] == BuildRow(d);
  }

  /**
   * Under a column-K search, a repeated direct reservation is never found
   * through its own earlier row: that row's column K is empty and the
   * composite key is not.
   */
  lemma RepeatDirectNotDetectedInColumn(rows: seq<seq<string>>, d: ReservationDetails)
    requires SessionKey(d).None?
    requires SessionColumnLookup(rows, DirectKey(d)) == Some(false)
    ensures DuplicateCheck(rows + [BuildRow(d)], d, SessionColumnLookup) == Some(false)
  {
    var after := rows + [BuildRow(d)];
    assert |DirectKey(d)| >= 3;
    assert BuildRow(d)[10] == "";
    forall i | 0 <= i < |after| && 10 < |after[i]|
      ensures after[i][10] != DirectKey(d)
    {
      if i < |rows| {
        assert after[i] == rows[i];
      }
    }
  }

  // ---------------------------------------------------------- handler

  /** The data the handler answers with on success. */
  datatype Confirmation = Confirmation(
    success: bool,
    message: string,
    reservationId: string,
    isDuplicate: bool,
    reservationDetails: ReservationDetails)

  const MISSING_FIELDS: Response<Confirmation> :=
    Response(400, Error("Missing required reservation data", "First name, last name, date, and time are required"))
  const INTERNAL_ERROR: Response<Confirmation> :=
    Response(500, Error("Internal server error", "An unexpected error occurred while processing the reservation"))
  const SAVE_FAILED: Response<Confirmation> :=
    Response(500, Error("Failed to save reservation", "Unable to append reservation to spreadsheet"))

  /**
   * What the handler does with a resolved record `d`, as a relation between
   * the rows before, the rows after and the response.
   */
  predicate Handled(before: seq<seq<string>>, after: seq<seq<string>>, response: Response<Confirmation>,
                    d: ReservationDetails, env: Environment) {
    if MissingRequired(d) then
      response == MISSING_FIELDS && after == before
    else
      match DuplicateCheck(before, d, env.rowExists)
      case None =>
        response == INTERNAL_ERROR && after == before
      case Some(true) =>
        response == Response(200, Ok(Confirmation(true, DUPLICATE_MESSAGE, DUPLICATE_ID, true, d)))
        && after == before
      case Some(false) =>
        if env.appendSucceeds then
          response == Response(200, Ok(Confirmation(true, SAVED_MESSAGE, env.newId, false, d)))
          && after == before + [BuildRow(d)]
        else
          response == SAVE_FAILED && after == before
  }

  /**
   * The sheet gains a row exactly when a record is saved, and then exactly
   * the record's row; the id is "DUPLICATE" exactly for a duplicate.
   */
  lemma HandledEffect(before: seq<seq<string>>, after: seq<seq<string>>, response: Response<Confirmation>,
                      d: ReservationDetails, env: Environment)
    requires env.newId != DUPLICATE_ID
    requires Handled(before, after, response, d, env)
    ensures after == before || after == before + [BuildRow(d)]
    ensures after == before + [BuildRow(d)] <==> response.body.Ok? && !response.body.value.isDuplicate
    ensures response.body.Ok? ==> (response.body.value.reservationId == DUPLICATE_ID <==> response.body.value.isDuplicate)
    ensures response.body.Ok? ==> response.status == 200 && response.body.value.reservationDetails == d
    ensures MissingRequired(d) ==> response.status == 400
  {
    assert before != before + [BuildRow(d)] by {
      assert |before + [BuildRow(d)]| == |before| + 1;
    }
  }

  /** The reservations sheet (columns A to L), held in memory. */
  class ReservationSheet {
    var rows: seq<seq<string>>

    constructor (initial: seq<seq<string>>)
      ensures rows == initial
    {
      rows := initial;
    }

    /** Handle one request to the reservation-success endpoint. */
    method ReservationSuccess(httpMethod: string, body: RequestBody<ReservationSuccessRequest>, env: Environment)
      returns (response: Response<Confirmation>)
      requires env.newId != DUPLICATE_ID
      modifies this
      ensures IsPreflight(httpMethod) ==> response == Response(200, NoContent) && rows == old(rows)
      ensures !IsPreflight(httpMethod) && body.EmptyBody? ==>
        response == Response(400, Error("Request body is required", "Reservation data must be provided in the request body"))
        && rows == old(rows)
      ensures !IsPreflight(httpMethod) && body.MalformedJson? ==>
        response == Response(400, Error("Invalid JSON format", body.message)) && rows == old(rows)
      ensures !IsPreflight(httpMethod) && body.NullJson? ==>
        response == Response(400, Error("Invalid request format", "Unable to parse reservation data")) && rows == old(rows)
      ensures !IsPreflight(httpMethod) && body.Parsed? ==>
        Handled(old(rows), rows, response, ResolveReservationDetails(body.value, env), env)
    {
      if IsPreflight(httpMethod) {
        return Response(200, NoContent);
      }
      match body
      case EmptyBody =>
        return Response(400, Error("Request body is required", "Reservation data must be provided in the request body"));
      case MalformedJson(message) =>
        return Response(400, Error("Invalid JSON format", message));
      case NullJson =>
        return Response(400, Error("Invalid request format", "Unable to parse reservation data"));
      case Parsed(request) =>
        var details := ResolveReservationDetails(request, env);

        if MissingRequired(details) {
          return MISSING_FIELDS;
        }

        var isDuplicate: bool;
        if details.stripeSessionId.Some? && details.stripeSessionId.value != "" {
          var found := env.rowExists(rows, details.stripeSessionId.value);
          if found.None? {
            return INTERNAL_ERROR;
          }
          isDuplicate := found.value;
        } else {
          var found := env.rowExists(rows, DirectKey(details));
          isDuplicate := found == Some(true);
        }

        if !isDuplicate {
          if !env.appendSucceeds {
            return SAVE_FAILED;
          }
          rows := rows + [BuildRow(details)];
        }

        var reservationId := if isDuplicate then DUPLICATE_ID else env.newId;
        var message := if isDuplicate then DUPLICATE_MESSAGE else SAVED_MESSAGE;
        response := Response(200, Ok(Confirmation(true, message, reservationId, isDuplicate, details)));
    }
  }

  /** A new record with a working append is saved: one row more and the new id. */
  lemma NewRecordSaved(before: seq<seq<string>>, after: seq<seq<string>>, response: Response<Confirmation>,
                       d: ReservationDetails, env: Environment)
    requires env.appendSucceeds && !MissingRequired(d) && DuplicateCheck(before, d, env.rowExists) == Some(false)
    requires Handled(before, after, response, d, env)
    ensures after == before + [BuildRow(d)]
    ensures response.body.Ok? && !response.body.value.isDuplicate && response.body.value.reservationId == env.newId
  {
  }

  /** A record found in the sheet is answered as a duplicate and adds nothing. */
  lemma KnownRecordNotSaved(before: seq<seq<string>>, after: seq<seq<string>>, response: Response<Confirmation>,
                            d: ReservationDetails, env: Environment)
    requires !MissingRequired(d) && DuplicateCheck(before, d, env.rowExists) == Some(true)
    requires Handled(before, after, response, d, env)
    ensures after == before
    ensures response.body.Ok? && response.body.value.isDuplicate && response.body.value.reservationId == DUPLICATE_ID
  {
  }

  /**
   * Handling the same paid record twice appends one row: the second
   * request finds the session id in the row the first one appended, given
   * a row search that finds the cells of the last row.
   */
  lemma PaidResubmissionAppendsOnce(before: seq<seq<string>>, middle: seq<seq<string>>, after: seq<seq<string>>,
                                    first: Response<Confirmation>, second: Response<Confirmation>,
                                    d: ReservationDetails, env: Environment)
    requires env.appendSucceeds && !MissingRequired(d) && SessionKey(d).Some?
    requires env.rowExists(before, SessionKey(d).value) == Some(false)
    requires forall rs: seq<seq<string>>, row: seq<string>, v: string {:trigger env.rowExists(rs + [row], v)} ::
      v in row ==> env.rowExists(rs + [row], v) == Some(true)
    requires Handled(before, middle, first, d, env) && Handled(middle, after, second, d, env)
    ensures middle == before + [BuildRow(d)] && after == middle
    ensures first.body.Ok? && !first.body.value.isDuplicate && first.body.value.reservationId == env.newId
    ensures second.body.Ok? && second.body.value.isDuplicate && second.body.value.reservationId == DUPLICATE_ID
  {
    NewRecordSaved(before, middle, first, d, env);
    assert SessionKey(d).value in BuildRow(d) by {
      RowPaymentCells(d);
    }
    assert DuplicateCheck(middle, d, env.rowExists) == Some(true);
    KnownRecordNotSaved(middle, after, second, d, env);
  }
}
