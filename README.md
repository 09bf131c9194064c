# c-kitchen reservations and payments, modelled in Dafny

A model of the booking and payment core of the c-kitchen restaurant site.

The server side is three HTTP handlers:
- **payment**: checks a payment request and opens a card checkout session in GBP at the payment gateway.
- **reservation success**: turns a request, and the payment session it may name, into a reservation record. It checks the record's required fields, looks for a duplicate, and appends a twelve-column row to the reservations sheet.
- **reservation types**: reads the catalog sheet and serves the active types, or one built-in type.

The browser side is:
- the two client services that call these handlers: the reservation fee formula, the error-message mapping and the catalog filter;
- the validation rules of the reservation form and the contact form.

Each source file is one module:

| module | models |
|---|---|
| `PaymentModels`, `ReservationTypeModels` | the request and record classes, with their defaults |
| `PaymentEndpoint` | the payment handler, as a function of the request and a gateway parameter |
| `ReservationEndpoint` | the reservation-success handler: a `ReservationSheet` class whose `rows` the handler appends to, plus the record construction, the duplicate check and the row layout |
| `ReservationTypesEndpoint` | the types handler; the sheet-reading loop is a method proved against a specification function |
| `PaymentService`, `ReservationTypesService` | the client services, on replies given as values |
| `ReservationsPage`, `ContactPage`, `FormRules` | the forms' initial values, error maps and shared rules |

The shared modules are:
- `Wrappers`: `Option`.
- `Text`: ASCII lower-casing, the .NET and JavaScript trims, decimal rendering, UTF-16 length.
- `Clock`: the `dd/MM/yyyy HH:mm:ss` formats.
- `Json`: client-side JSON values and truthiness.
- `Http`: request-body outcomes and responses without headers.

Everything outside the handlers is a parameter:
- the payment gateway;
- the sheet's row search and whether an append succeeds;
- `int.TryParse` and `decimal.TryParse`;
- the clock reading;
- the new reservation id.

The handler's pieces are each modelled and proved separately. `Handled` relates the rows before, the rows after and the response for a resolved record. The method `ReservationSheet.ReservationSuccess` is proved to establish it.

## Model

| member | source | states |
|---|---|---|
| Text.ToInt32 | API/Endpoints/ReservationEndpoint.cs:104 | the `(int)` cast agrees with its argument modulo 2^32, and is the argument itself when it fits in 32 bits |
| Text.Lower | API/Endpoints/ReservationEndpoint.cs:258 | lower-casing keeps the length |
| Text.LowerIdempotent | API/Endpoints/ReservationEndpoint.cs:258 | lower-casing twice is lower-casing once |
| Text.Trim | API/Endpoints/ReservationTypesEndpoint.cs:102-106 | the trimmed text has no white space at either end, and it is empty exactly when every character is white space |
| Text.TrimmedUnchanged | API/Endpoints/ReservationTypesEndpoint.cs:102-106 | a text with no white space at either end is its own trim |
| Text.TrimDropsLast | API/Endpoints/ReservationTypesEndpoint.cs:106 | one trimmable character after a trimmed text is removed again and nothing else |
| Text.TrimDropsFirst | API/Endpoints/ReservationTypesEndpoint.cs:106 | one trimmable character before a trimmed text is removed again and nothing else |
| Text.NatToString | API/Endpoints/ReservationEndpoint.cs:285 | the decimal text of n is digits only and reads back as n; it is one digit exactly when n < 10, and it starts with '0' only for n = 0 (no leading zeros) |
| Text.IntToString | API/Endpoints/ReservationEndpoint.cs:283 | `int.ToString()` starts with '-' exactly when n is negative; the rest is the shortest digit string of n's magnitude, which reads back as that magnitude |
| Text.PadLeft | API/Endpoints/ReservationEndpoint.cs:277 | a zero-padded field is digits only, reads back as its value, and is at least as wide as asked |
| Text.Utf16Length | src/pages/Restaurant/Reservations.page.tsx:35 | JavaScript's `length` is between the number of characters and twice that; it is exactly the number of characters when none lies beyond U+FFFF, and larger when one does |
| Text.Utf16LengthAppend | src/pages/Restaurant/Reservations.page.tsx:35 | the UTF-16 length of a concatenation is the sum of the lengths |
| Text.Utf16LengthChar | src/pages/Restaurant/Reservations.page.tsx:35 | one character counts 2 UTF-16 units beyond U+FFFF and 1 otherwise |
| Clock.Pad2 | API/Endpoints/ReservationEndpoint.cs:285 | a two-digit field reads back as its value |
| Clock.TokenText | API/Endpoints/ReservationEndpoint.cs:277 | each date or time field is exactly its width in digits and reads back as the field's value; each separator is its one character |
| Clock.FormatDate | API/Endpoints/ReservationEndpoint.cs:245 | `dd/MM/yyyy` is ten characters with '/' at positions 2 and 5, and its three digit groups read back as day, month and year |
| Clock.FormatFields | API/Endpoints/ReservationEndpoint.cs:277 | three fields joined by two separators format to the field texts at their widths with the separator characters between them |
| Clock.FormatTime | API/Endpoints/ReservationEndpoint.cs:277 | `HH:mm:ss` is eight characters with ':' at positions 2 and 5, and its digit groups read back as hour, minute and second |
| Clock.FormatTimestamp | API/Endpoints/ReservationEndpoint.cs:277 | the row timestamp is nineteen characters, all digits or separators |
| Clock.TimestampLayout | API/Endpoints/ReservationEndpoint.cs:277 | the timestamp is the date, a space, then the time of day |
| Clock.FormatDateInjective | API/Endpoints/ReservationEndpoint.cs:245 | two readings with the same date text fall on the same calendar day |
| PaymentModels.DefaultPaymentRequest | API/Models/PaymentModels.cs:7-29 | an empty JSON object deserialises to no product name, amount and quantity 0, currency GBP, and no optional fields |
| PaymentModels.EmptyReservationRequest | API/Models/PaymentModels.cs:47-58 | every field of an empty reservation request is absent |
| PaymentModels.NewReservationDetails | API/Models/PaymentModels.cs:60-74 | a new record has empty texts, zero numbers and no session id |
| ReservationTypeModels.NewReservationType | API/Models/ReservationTypeModels.cs:5-12 | a new type has empty texts, deposit 0, and is active |
| ReservationTypeModels.ToJson | API/Models/ReservationTypeModels.cs:7-11 | a type serialises to an object with exactly the five property names, each holding the matching field |
| PaymentEndpoint.CheckoutCallFor | API/Endpoints/PaymentEndpoint.cs:82-107 | the gateway call has the request's one line item; its redirect URLs are the request's or the example.com ones; its metadata is the request's or empty |
| PaymentEndpoint.CreatePayment | API/Endpoints/PaymentEndpoint.cs:35-165 | preflight is a bare 200; every status is 200, 400 or 500; a non-preflight 200 only answers a parsed, valid request whose gateway call returned the non-empty URL in the answer |
| PaymentEndpoint.PreflightIgnoresBody | API/Endpoints/PaymentEndpoint.cs:35-40 | a preflight answer depends on neither the body nor the gateway |
| PaymentEndpoint.BodyErrors | API/Endpoints/PaymentEndpoint.cs:46-69 | an empty, null or unparsable body gets its own 400 |
| PaymentEndpoint.RejectedBeforeGateway | API/Endpoints/PaymentEndpoint.cs:72-80 | a request lacking a name or a positive amount is "Invalid payment data" whatever the gateway; a valid one never is |
| PaymentEndpoint.QuantityUnchecked | API/Endpoints/PaymentEndpoint.cs:72-96 | the quantity plays no part in validation and reaches the line item unchanged |
| PaymentEndpoint.CurrencyAndEmailIgnored | API/Endpoints/PaymentEndpoint.cs:82-107 | the request's currency and customer email do not change the answer |
| PaymentEndpoint.GatewayDecides | API/Endpoints/PaymentEndpoint.cs:102-165 | for a valid request: 200 with the URL exactly when the gateway returns a non-empty one; 500 when it throws or returns null or "" |
| PaymentEndpoint.EmptyObjectRejected | API/Endpoints/PaymentEndpoint.cs:72-80 | the empty JSON object is rejected as invalid payment data |
| PaymentService.CalculateReservationFee | src/services/paymentService.ts:112-118 | the fee is at least 1500 pence, exactly 1500 up to two guests, and 1500 plus a multiple of 500 |
| PaymentService.FeeMonotone | src/services/paymentService.ts:112-118 | a larger party never pays less |
| PaymentService.FeePerExtraGuest | src/services/paymentService.ts:115-117 | each guest beyond two adds 500 pence |
| PaymentService.FeeDeterminesPartySize | src/services/paymentService.ts:112-118 | from two guests on, the fee determines the party size |
| PaymentService.Or | src/services/paymentService.ts:85 | `a \|\| b` is a when a is truthy, else b |
| PaymentService.ErrorMessage | src/services/paymentService.ts:85 | the error message is truthy and is the details, the error or the fixed message |
| PaymentService.MapReply | src/services/paymentService.ts:68-99 | a thrown fetch or an unreadable body gives the network message; an OK reply passes its data on; a non-OK reply carries `details || error || fallback` of its body, or the network message when the body is null and the property access throws; the result is a failure exactly when the fetch threw, the body is unreadable or the status is not OK |
| PaymentService.CreatePaymentSession | src/services/paymentService.ts:68-99 | an OK reply passes its data on; a non-OK reply carries `details || error || "Payment creation failed"`; a thrown fetch, an unreadable body or a null error body gives the payment network message; every failure message is truthy |
| PaymentService.SaveReservation | src/services/paymentService.ts:133-164 | an OK reply passes its data on; a non-OK reply carries `details || error || "Failed to save reservation"`; a thrown fetch, an unreadable body or a null error body gives the save network message; every failure message is truthy |
| PaymentService.ErrorMessagePrecedence | src/services/paymentService.ts:150 | non-empty details win; then a non-empty error; then the fixed message |
| PaymentService.FixedMessages | src/services/paymentService.ts:80-87 | a body with neither field, or both empty, gives each call its own fixed message |
| PaymentService.NetworkMessages | src/services/paymentService.ts:91-97 | a thrown fetch, or a null error body, gives each call its network message |
| PaymentService.ErrorBodyJson | API/Endpoints/PaymentEndpoint.cs:111-116 | an error answer's body carries its error and details texts |
| PaymentService.PaymentErrorsReachClient | src/services/paymentService.ts:80-87 | every error answer of the payment handler is not OK, and the page sees its details text when it is not empty |
| ReservationEndpoint.GetReservationTypeLabel | API/Endpoints/ReservationEndpoint.cs:256-265 | the label is one of the three, AYCE and Christmas exactly for their keys in any letter case, Regular Dining for every other key |
| ReservationEndpoint.LabelIgnoresCase | API/Endpoints/ReservationEndpoint.cs:258 | spellings equal up to case get the same label |
| ReservationEndpoint.LabelExamples | API/Endpoints/ReservationEndpoint.cs:258-264 | "AYCE", "Ayce", "ayce", "Christmas" and "unknown" get their labels |
| ReservationEndpoint.CreateReservationDetailsFromRequest | API/Endpoints/ReservationEndpoint.cs:237-254 | the label is derived from the type; the status is Paid exactly when the request's deposit is positive, else No Deposit Required; the session id and clock reading are carried over |
| ReservationEndpoint.FromRequestRoundTrip | API/Endpoints/ReservationEndpoint.cs:237-254 | a record whose label and status are the derived ones is rebuilt unchanged from the request carrying its fields |
| ReservationEndpoint.FromEmptyRequest | API/Endpoints/ReservationEndpoint.cs:241-252 | absent fields default to Unknown, Guest, regular, today, Not specified, 2, "" and 0 |
| ReservationEndpoint.CreateReservationDetailsFromMetadata | API/Endpoints/ReservationEndpoint.cs:94-108 | the metadata record's label is derived from its type; it is marked Paid and carries the request's session id |
| ReservationEndpoint.MetadataPrecedence | API/Endpoints/ReservationEndpoint.cs:96-104 | each field is the metadata's value when present, else what the request path gives; the deposit is the 32-bit cast of the session total, else the request's |
| ReservationEndpoint.PartySizeFallsBack | API/Endpoints/ReservationEndpoint.cs:102 | with a parser that reads back `ToString()`, a party size the metadata lacks is the request's, or 2 |
| ReservationEndpoint.EmptyMetadataMatchesRequestPath | API/Endpoints/ReservationEndpoint.cs:94-108 | empty metadata gives the request-path record, marked Paid, with the session total as deposit when there is one |
| ReservationEndpoint.ResolveReservationDetails | API/Endpoints/ReservationEndpoint.cs:72-133 | whichever path builds it, the record has the derived label, is Paid or No Deposit Required, and carries the request's session id and the clock reading |
| ReservationEndpoint.DirectReservationNotPaid | API/Endpoints/ReservationEndpoint.cs:127-133 | without a session id the record is the request-path one marked No Deposit Required, whatever its deposit |
| ReservationEndpoint.SessionReservationPaid | API/Endpoints/ReservationEndpoint.cs:91-119 | with a session id and a lookup that returns, the record is Paid and carries the id |
| ReservationEndpoint.LookupFailureUsesRequest | API/Endpoints/ReservationEndpoint.cs:121-125 | a lookup that throws gives the request-path record, Paid only for a positive deposit |
| ReservationEndpoint.NullSessionUsesRequest | API/Endpoints/ReservationEndpoint.cs:112-119 | a null session or null metadata gives the request-path record marked Paid |
| ReservationEndpoint.PaidImpliesSession | API/Endpoints/ReservationEndpoint.cs:72-133 | a Paid record always carries a non-empty session id |
| ReservationEndpoint.RequestRecordMissingIff | API/Endpoints/ReservationEndpoint.cs:136-139 | on the request path a required field is empty exactly when the request gave it as "" |
| ReservationEndpoint.MissingRequiredIffExplicitEmpty | API/Endpoints/ReservationEndpoint.cs:136-147 | off the metadata path the handler's 400 for missing data happens exactly when the request gave a first name, last name, date or time as "" |
| ReservationEndpoint.SessionKey | API/Endpoints/ReservationEndpoint.cs:151 | a record has a session key exactly when its session id is non-empty, and then the key is that id |
| ReservationEndpoint.DuplicateCheck | API/Endpoints/ReservationEndpoint.cs:149-161 | a record with a session id is searched by the id, and a failed search is passed on; otherwise by the composite key, and a failed search counts as no duplicate |
| ReservationEndpoint.DuplicateKeyIsRequestSession | API/Endpoints/ReservationEndpoint.cs:75 | the record's duplicate key is the request's session id exactly when it is non-empty |
| ReservationEndpoint.DepositCell | API/Endpoints/ReservationEndpoint.cs:285 | a deposit that is not positive is written £0.00, and no deposit cell contains '_' |
| ReservationEndpoint.DepositCellRoundTrip | API/Endpoints/ReservationEndpoint.cs:285 | a positive deposit cell is '£', pounds, '.', two pence digits, reading back as the amount in pence |
| ReservationEndpoint.DepositCellZeroIff | API/Endpoints/ReservationEndpoint.cs:285 | the cell reads £0.00 exactly when the deposit is not positive |
| ReservationEndpoint.BuildRow | API/Endpoints/ReservationEndpoint.cs:275-289 | a row has twelve cells, columns A to L |
| ReservationEndpoint.RowOf | API/Endpoints/ReservationEndpoint.cs:275-289 | a row built from a record and its three formatted cells has twelve cells |
| ReservationEndpoint.RowColumns | API/Endpoints/ReservationEndpoint.cs:275-289 | columns A to L hold the timestamp cell, the names, label, date, time, party-size cell, notes, deposit cell, status, session id or "", and full name |
| ReservationEndpoint.BuildRowColumns | API/Endpoints/ReservationEndpoint.cs:275-289 | the appended row holds the formatted timestamp in A, the party size's text in G and the deposit cell in I, and the record's fields in the other columns |
| ReservationEndpoint.RowNameCells | API/Endpoints/ReservationEndpoint.cs:278-288 | columns B, C and L hold the first name, the last name and the two joined by a space |
| ReservationEndpoint.RowBookingCells | API/Endpoints/ReservationEndpoint.cs:280-282 | columns D, E and F hold the type label, the date and the time |
| ReservationEndpoint.RowPaymentCells | API/Endpoints/ReservationEndpoint.cs:285-287 | columns I, J and K hold the deposit cell, the payment status and the session id or "" |
| ReservationEndpoint.ComputedCellsDifferFromKey | API/Endpoints/ReservationEndpoint.cs:277-285 | the timestamp, party-size and deposit cells are never a direct reservation's composite key |
| ReservationEndpoint.LabelCellsDifferFromKey | API/Endpoints/ReservationEndpoint.cs:280-286 | the label and status cells of a direct reservation are never its key |
| ReservationEndpoint.CopiedCellsDifferFromKey | API/Endpoints/ReservationEndpoint.cs:278-288 | the copied cells of a direct reservation's row are shorter than its key |
| ReservationEndpoint.DirectKeyNotInRow | API/Endpoints/ReservationEndpoint.cs:321 | the composite key `First_Last_Date_Time` is in a direct reservation's own row only if the notes spell it |
| ReservationEndpoint.RepeatSessionDetected | API/Endpoints/ReservationEndpoint.cs:151-154 | under a whole-cell search, a paid reservation submitted again is found in the row it appended |
| ReservationEndpoint.RepeatDirectNotDetected | API/Endpoints/ReservationEndpoint.cs:312-329 | under a whole-cell search, a direct reservation submitted again is not found: its key was never written |
| ReservationEndpoint.RepeatSessionDetectedInColumn | API/Endpoints/ReservationEndpoint.cs:304-310 | a search of column K finds a paid reservation submitted again |
| ReservationEndpoint.RepeatDirectNotDetectedInColumn | API/Endpoints/ReservationEndpoint.cs:321-323 | a search of column K never finds a direct reservation through its own row, whose column K is empty |
| ReservationEndpoint.HandledEffect | API/Endpoints/ReservationEndpoint.cs:136-213 | the sheet gains either nothing or exactly the record's row, and the row exactly when the answer is a non-duplicate success; the id is DUPLICATE exactly for a duplicate; missing data is a 400 |
| ReservationEndpoint.ReservationSheet.constructor | API/Endpoints/ReservationEndpoint.cs:342-347 | the sheet starts with the given rows |
| ReservationEndpoint.ReservationSheet.ReservationSuccess | API/Endpoints/ReservationEndpoint.cs:29-235 | preflight and each body error get their answer and leave the rows alone; a parsed request changes the rows and answers as `Handled` says for the resolved record |
| ReservationEndpoint.NewRecordSaved | API/Endpoints/ReservationEndpoint.cs:163-188 | a complete record not found, with a working append, adds its row and gets the new id |
| ReservationEndpoint.KnownRecordNotSaved | API/Endpoints/ReservationEndpoint.cs:149-188 | a complete record found in the sheet adds nothing and gets the DUPLICATE id |
| ReservationEndpoint.PaidResubmissionAppendsOnce | API/Endpoints/ReservationEndpoint.cs:149-188 | the same paid record handled twice appends one row: the first time saved, the second a duplicate |
| ReservationTypesEndpoint.CellText | API/Endpoints/ReservationTypesEndpoint.cs:102-104 | a missing or null cell is ""; any other cell is trimmed at both ends |
| ReservationTypesEndpoint.ParseBool | API/Endpoints/ReservationTypesEndpoint.cs:106 | `bool.TryParse` gives true or false exactly when the text, with white space and NUL characters trimmed from both ends, is that word in some letter case, and nothing otherwise |
| ReservationTypesEndpoint.ParseTrimmedBool | API/Endpoints/ReservationTypesEndpoint.cs:106 | a text with nothing to trim parses by its lower-cased form alone |
| ReservationTypesEndpoint.ParseBoolTrimsNull | API/Endpoints/ReservationTypesEndpoint.cs:106 | a NUL before or after a trimmed text does not change what it parses to |
| ReservationTypesEndpoint.ParseBoolUpperTrue | API/Endpoints/ReservationTypesEndpoint.cs:106 | "TRUE" parses as true |
| ReservationTypesEndpoint.ParseBoolMixedFalse | API/Endpoints/ReservationTypesEndpoint.cs:106 | "False" parses as false |
| ReservationTypesEndpoint.ParseBoolRejectsShort | API/Endpoints/ReservationTypesEndpoint.cs:106 | a text shorter than four characters with nothing to trim is not a boolean |
| ReservationTypesEndpoint.ParseBoolRejectsOthers | API/Endpoints/ReservationTypesEndpoint.cs:106 | "yes", "1" and "" are not booleans |
| ReservationTypesEndpoint.FalseWordTrimmed | API/Endpoints/ReservationTypesEndpoint.cs:106 | any spelling of "false" has five characters and starts and ends with a letter |
| ReservationTypesEndpoint.NullPaddedFalse | API/Endpoints/ReservationTypesEndpoint.cs:102-106 | "false" in any letter case followed by a NUL survives `String.Trim` unchanged and still parses as false |
| ReservationTypesEndpoint.ParseRowColumns | API/Endpoints/ReservationTypesEndpoint.cs:100-107 | a row's texts are its trimmed cells; the deposit is 0 unless a fourth cell parses; the type is active unless a fifth cell reads false |
| ReservationTypesEndpoint.InactiveIff | API/Endpoints/ReservationTypesEndpoint.cs:106 | a type is inactive exactly when its fifth cell, trimmed of white space and then of white space and NUL characters, reads "false" in some letter case |
| ReservationTypesEndpoint.RowTypes | API/Endpoints/ReservationTypesEndpoint.cs:89-116 | a row contributes at most one type, only when it is non-empty and its type is kept |
| ReservationTypesEndpoint.RowTypesMembership | API/Endpoints/ReservationTypesEndpoint.cs:89-116 | a row contributes a type exactly when it is non-empty, parses to it and the type is kept |
| ReservationTypesEndpoint.DefaultReservationTypes | API/Endpoints/ReservationTypesEndpoint.cs:148-160 | the built-in catalog is Regular Dining alone, active and without deposit |
| ReservationTypesEndpoint.RetrieveReservationTypesFromSpreadsheet | API/Endpoints/ReservationTypesEndpoint.cs:66-146 | the loop over the sheet computes exactly the catalog function |
| ReservationTypesEndpoint.GetReservationTypes | API/Endpoints/ReservationTypesEndpoint.cs:24-53 | preflight is a bare 200; an empty catalog is a 404; otherwise 200 with the catalog |
| ReservationTypesEndpoint.KeptTypesStep | API/Endpoints/ReservationTypesEndpoint.cs:87-128 | each pass of the loop appends what row i contributes |
| ReservationTypesEndpoint.KeptTypesAppend | API/Endpoints/ReservationTypesEndpoint.cs:87-128 | the types of two blocks of rows are the two results in order |
| ReservationTypesEndpoint.KeptTypesMembership | API/Endpoints/ReservationTypesEndpoint.cs:87-128 | a type is served exactly when some row contributes it |
| ReservationTypesEndpoint.KeptTypesFromRows | API/Endpoints/ReservationTypesEndpoint.cs:87-128 | a type is served exactly when some non-empty row parses to it and it is kept |
| ReservationTypesEndpoint.KeptTypesValid | API/Endpoints/ReservationTypesEndpoint.cs:112-116 | every served type is active with a trimmed non-empty label and value |
| ReservationTypesEndpoint.SkippedRowIgnored | API/Endpoints/ReservationTypesEndpoint.cs:89-94 | a null or empty row changes nothing |
| ReservationTypesEndpoint.HeaderIgnored | API/Endpoints/ReservationTypesEndpoint.cs:86-87 | the first row is never parsed |
| ReservationTypesEndpoint.HeaderOnlyGivesDefault | API/Endpoints/ReservationTypesEndpoint.cs:132-137 | a sheet with only its header serves the built-in catalog |
| ReservationTypesEndpoint.CatalogEmptyIff | API/Endpoints/ReservationTypesEndpoint.cs:78-82 | the endpoint's 404 happens exactly when the read returned null or no rows |
| ReservationTypesEndpoint.CatalogIsKeptRowsOrDefault | API/Endpoints/ReservationTypesEndpoint.cs:84-139 | a read with rows serves the kept rows after the header, or the built-in catalog when none is kept, and every type served is valid |
| ReservationTypesEndpoint.ShortRowDefaults | API/Endpoints/ReservationTypesEndpoint.cs:100-107 | a row of label and value only is an active type with no description and no deposit |
| ReservationTypesService.Filter | src/services/reservationTypesService.ts:35 | `Array.prototype.filter` keeps only entries of the array that pass the callback |
| ReservationTypesService.FilterValid | src/services/reservationTypesService.ts:35-42 | the filter keeps only entries of the answer that pass the test |
| ReservationTypesService.ValidWhenNotBlank | src/services/reservationTypesService.ts:35-42 | an active type with label and value not blank to JavaScript serialises to an entry that passes the test |
| ReservationTypesService.ValidWhenLeadingText | src/services/reservationTypesService.ts:35-42 | an active type whose label and value start with a character JavaScript does not trim serialises to an entry that passes the test |
| ReservationTypesService.DefaultReservationTypes | src/services/reservationTypesService.ts:57-67 | the client's built-in list is one entry that passes the test |
| ReservationTypesService.GetReservationTypes | src/services/reservationTypesService.ts:17-52 | an OK array answer gives its filtered entries; anything else gives the built-in list |
| ReservationTypesService.FilterMembership | src/services/reservationTypesService.ts:35-42 | for any callback, an entry is kept exactly when it is in the array and passes the callback |
| ReservationTypesService.FilterAppend | src/services/reservationTypesService.ts:35-42 | for any callback, the filter keeps array order: filtering a concatenation concatenates the results |
| ReservationTypesService.FilterSingle | src/services/reservationTypesService.ts:35-42 | for any callback, one entry is kept exactly when it passes the callback |
| ReservationTypesService.FilterIdempotent | src/services/reservationTypesService.ts:35-42 | for any callback, filtering again changes nothing |
| ReservationTypesService.FilterKeepsValid | src/services/reservationTypesService.ts:35-42 | an array whose entries all pass the callback passes whole |
| ReservationTypesService.FilterDropsInvalid | src/services/reservationTypesService.ts:35-42 | an array whose entries all fail the callback leaves nothing |
| ReservationTypesService.DefaultTypesValid | src/services/reservationTypesService.ts:57-67 | the built-in entry passes the test |
| ReservationTypesService.ReceivedTypesValid | src/services/reservationTypesService.ts:17-52 | every entry the pages receive passes the test |
| ReservationTypesService.AllFilteredGivesEmpty | src/services/reservationTypesService.ts:35-46 | an OK answer with no valid entry gives an empty list, not the built-in one |
| ReservationTypesService.FailureGivesDefault | src/services/reservationTypesService.ts:26-28 | a thrown fetch, a non-OK status or an unreadable body gives the built-in list |
| ReservationTypesService.DefaultsAgree | src/services/reservationTypesService.ts:57-67 | the client's built-in list is the server's built-in catalog as the server writes it |
| ReservationTypesService.ServedTypePassesFilter | src/services/reservationTypesService.ts:35-42 | a type the server serves passes the client's test unless its label or value starts with U+FEFF |
| ReservationTypesService.ByteOrderMarkLabelDropped | src/services/reservationTypesService.ts:38-40 | an active type with value "regular" and a label of one U+FEFF is served by the server and dropped by the client |
| ReservationTypesService.SerialiseAll | API/Endpoints/ReservationTypesEndpoint.cs:52 | the served array has one serialised entry per type, in order |
| ReservationTypesService.ServedCatalogKept | src/services/reservationTypesService.ts:17-46 | a catalog of served types, none starting with U+FEFF, reaches the pages whole and in order |
| FormRules.EmailPatternIff | src/pages/Restaurant/Reservations.page.tsx:37 | `^\S+@\S+$` accepts exactly the texts with no white space and an '@' that is neither first nor last |
| FormRules.EmailExamples | src/pages/Restaurant/Contact.page.tsx:29 | "a@b" and "a@@b" match; "@b", "a@", "ab" and "a b@c" do not |
| FormRules.ShorterThanBounds | src/pages/Restaurant/Reservations.page.tsx:35 | n characters are never too short for `length < n`; fewer than n/2 always are |
| FormRules.AstralCharacterCountsTwice | src/pages/Restaurant/Contact.page.tsx:28 | one character outside the Basic Multilingual Plane already has length 2 |
| ReservationsPage.InitialValues | src/pages/Restaurant/Reservations.page.tsx:24-33 | the form starts empty, with no date and a party of 2 |
| ReservationsPage.Validate | src/pages/Restaurant/Reservations.page.tsx:34-42 | a field is in the error map exactly when its rule fails, with that rule's message |
| ReservationsPage.ContactDetailRules | src/pages/Restaurant/Reservations.page.tsx:35-38 | the name, email and phone fields fail exactly when too short or not an email |
| ReservationsPage.BookingRules | src/pages/Restaurant/Reservations.page.tsx:39-41 | the date, time and party-size fields fail exactly when unset, empty or outside 1 to 12 |
| ReservationsPage.AcceptedIff | src/pages/Restaurant/Reservations.page.tsx:34-42 | the error map is empty exactly when every rule passes |
| ReservationsPage.InitialFormErrors | src/pages/Restaurant/Reservations.page.tsx:24-42 | the untouched form fails every rule except party size |
| ReservationsPage.PhoneHasNoCharacterCheck | src/pages/Restaurant/Reservations.page.tsx:38 | the phone rule counts characters only: ten letters pass |
| ReservationsPage.AcceptedPartySizeFee | src/pages/Restaurant/Reservations.page.tsx:41 | every accepted party size costs between 1500 and 6500 pence |
| ReservationsPage.EarlySlotMinutes | src/pages/Restaurant/Reservations.page.tsx:65 | the first row of slots runs half-hourly from 11:00 |
| ReservationsPage.MiddleSlotMinutes | src/pages/Restaurant/Reservations.page.tsx:66 | the second row runs half-hourly from 15:00 |
| ReservationsPage.LateSlotMinutes | src/pages/Restaurant/Reservations.page.tsx:67 | the third row runs half-hourly from 19:00 |
| ReservationsPage.SlotMinutes | src/pages/Restaurant/Reservations.page.tsx:64-68 | slot i is an `HH:mm` time i half hours after 11:00 |
| ReservationsPage.TimeSlotsHalfHourly | src/pages/Restaurant/Reservations.page.tsx:64-68 | the 23 slots run from 11:00 to 22:00 in half-hour steps, strictly ascending |
| ReservationsPage.TimeSlotsPassTimeRule | src/pages/Restaurant/Reservations.page.tsx:40 | every slot passes the time rule |
| ContactPage.InitialValues | src/pages/Restaurant/Contact.page.tsx:20-26 | the contact form starts with every field empty |
| ContactPage.Validate | src/pages/Restaurant/Contact.page.tsx:27-31 | a field is in the error map exactly when its rule fails, with that rule's message |
| ContactPage.ValidateRules | src/pages/Restaurant/Contact.page.tsx:28-30 | name, email and message fail exactly when too short or not an email |
| ContactPage.PhoneAndSubjectUnchecked | src/pages/Restaurant/Contact.page.tsx:27-31 | the phone and subject fields never affect the error map |
| ContactPage.InitialFormErrors | src/pages/Restaurant/Contact.page.tsx:20-31 | the untouched contact form fails all three rules |
| ContactPage.EmailRuleAgrees | src/pages/Restaurant/Contact.page.tsx:29 | both forms judge an email alike and give the same message |

## Left out

- JSON serialisation and deserialisation, header handling (CORS), logging and the response timestamps: a request body arrives as its parse outcome, and a response is its status and body.
- Exceptions other than those of the gateway, the session lookup, the row search and the append: the handlers answer them with 500 from their outer `catch`, which the model does not reach.
- A JSON null product name: it is modelled as the empty string, which the payment handler treats the same way.
- The payment gateway, the sheet reads and appends, `Guid.NewGuid()` and `DateTime.UtcNow` are parameters. One clock reading serves every `UtcNow` of a request.
- The sheet's row search takes a column argument (10) whose meaning lies in a sheet service that is not part of this model. `rowExists` is a parameter; `CellLookup` and `SessionColumnLookup` are two readings of it, each with its lemmas.
- The check-then-append race between two concurrent requests: the handler is modelled as one atomic step on the sheet.
- `int.TryParse` and `decimal.TryParse` are parameters. ReservationEndpoint.PartySizeFallsBack assumes a parser that reads back `ToString()`.
- Text.Lower: folds ASCII letters only; culture-sensitive `ToLower` also folds other letters, so labels and `bool.TryParse` for non-ASCII spellings are not modelled.
- The unreachable per-row exception and the unreachable 500 of the types handler: the row parse cannot throw, and the read's exception is caught inside. Their handlers are therefore not modelled.
- `formatAmount` (`Intl.NumberFormat`) and `redirectToCheckout` (browser navigation): no logic beyond the platform call.
- The pages' `handleSubmit`: it only waits, alerts and resets the form.
- JavaScript `NaN` and non-integer party sizes. The number input can also submit ''; the party size is modelled as an integer.
- ReservationEndpoint.ReservationSheet.ReservationSuccess: states the new rows and the answer through `Handled`; the repeat-submission property is proved about `Handled` (PaidResubmissionAppendsOnce) rather than by calling the method twice.
- The model follows the code as written:
  - a reservation without a session id is always "No Deposit Required", even when the request names a deposit (API/Endpoints/ReservationEndpoint.cs:127-133);
  - a reservation whose session lookup throws is not forced to "Paid" (API/Endpoints/ReservationEndpoint.cs:121-125).
- Culture-dependent formatting: `ToString("dd/MM/yyyy")` and `ToString("dd/MM/yyyy HH:mm:ss")` (API/Endpoints/ReservationEndpoint.cs:245, 277) and the `:F2` deposit amount (line 285) use the current culture's separators; the model fixes '/', ':' and '.', as the invariant and en-GB cultures write them.
