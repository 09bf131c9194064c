/**
 * The reservation form of the browser client: its initial values, its
 * validation rules and its table of time slots. A rule that fails puts its
 * message under the field's name in the form's error map.
 */
module ReservationsPage {
  import opened Wrappers
  import opened Text
  import opened Clock
  import opened FormRules
  import PaymentService

  /** The form's values; `date` is None until a date is picked. */
  datatype ReservationForm = ReservationForm(
    firstName: string,
    lastName: string,
    email: string,
    phoneNumber: string,
    date: Option<Instant>,
    time: string,
    partySize: int,
    notes: string)

  function InitialValues(): (f: ReservationForm)
    ensures f.firstName == "" && f.lastName == "" && f.email == "" && f.phoneNumber == ""
    ensures f.date.None? && f.time == "" && f.partySize == 2 && f.notes == ""
  {
    ReservationForm("", "", "", "", None, "", 2, "")
  }

  const FIRST_NAME_MESSAGE := "First name must have at least 2 letters"
  const LAST_NAME_MESSAGE := "Last name must have at least 2 letters"
  const EMAIL_MESSAGE := "Invalid email"
  const PHONE_MESSAGE := "Please enter a valid phone number"
  const DATE_MESSAGE := "Please select a date"
  const TIME_MESSAGE := "Please select a time"
  const PARTY_SIZE_MESSAGE := "Party size must be between 1 and 12"

  const MIN_PARTY_SIZE := 1
  const MAX_PARTY_SIZE := 12

  /** The names of the fields the form validates (`firstName`, `lastName`, ... `partySize`). */
  datatype Field = FirstName | LastName | Email | PhoneNumber | Date | Time | PartySize

  const FIELDS: set<Field> := {FirstName, LastName, Email, PhoneNumber, Date, Time, PartySize}

  /** Whether the rule of `field` rejects the form's value for it. */
  predicate Fails(f: ReservationForm, field: Field) {
    match field
    case FirstName => ShorterThan(f.firstName, 2)
    case LastName => ShorterThan(f.lastName, 2)
    case Email => !MatchesEmailPattern(f.email)
    case PhoneNumber => ShorterThan(f.phoneNumber, 10)
    case Date => f.date.None?
    case Time => f.time == ""
    case PartySize => !(f.partySize >= MIN_PARTY_SIZE && f.partySize <= MAX_PARTY_SIZE)
  }

  /** The message the rule of `field` shows. */
  function Message(field: Field): string {
    match field
    case FirstName => FIRST_NAME_MESSAGE
    case LastName => LAST_NAME_MESSAGE
    case Email => EMAIL_MESSAGE
    case PhoneNumber => PHONE_MESSAGE
    case Date => DATE_MESSAGE
    case Time => TIME_MESSAGE
    case PartySize => PARTY_SIZE_MESSAGE
  }

  /** The form's error map: the message of each field whose rule fails, and nothing else. */
  function Validate(f: ReservationForm): (errors: map<Field, string>)
    ensures forall k :: k in errors <==> Fails(f, k)
    ensures forall k :: k in errors ==> errors[k] == Message(k)
  {
    map k | k in FIELDS && Fails(f, k) :: Message(k)
  }

  /** The name, email and phone fields are in the error map exactly when their values break the rules as the page states them. */
  lemma ContactDetailRules(f: ReservationForm)
    ensures FirstName in Validate(f) <==> Utf16Length(f.firstName) < 2
    ensures LastName in Validate(f) <==> Utf16Length(f.lastName) < 2
    ensures Email in Validate(f) <==> !PlausibleEmail(f.email)
    ensures PhoneNumber in Validate(f) <==> Utf16Length(f.phoneNumber) < 10
  {
    EmailPatternIff(f.email);
  }

  /** The date, time and party-size fields are in the error map exactly when their values break the rules. */
  lemma BookingRules(f: ReservationForm)
    ensures Date in Validate(f) <==> f.date.None?
    ensures Time in Validate(f) <==> f.time == ""
    ensures PartySize in Validate(f) <==> !(MIN_PARTY_SIZE <= f.partySize <= MAX_PARTY_SIZE)
  {
  }

  /** The form may be submitted exactly when every rule passes. */
  lemma AcceptedIff(f: ReservationForm)
    ensures Validate(f) == map[] <==>
      && Utf16Length(f.firstName) >= 2 && Utf16Length(f.lastName) >= 2
      && PlausibleEmail(f.email) && Utf16Length(f.phoneNumber) >= 10
      && f.date.Some? && f.time != "" && MIN_PARTY_SIZE <= f.partySize <= MAX_PARTY_SIZE
  {
    ContactDetailRules(f);
    BookingRules(f);
    if Validate(f) != map[] {
      var k :| k in Validate(f);
    }
  }

  /** The untouched form fails every rule except the party-size one. */
  lemma InitialFormErrors()
    ensures Validate(InitialValues()).Keys == {FirstName, LastName, Email, PhoneNumber, Date, Time}
  {
    assert !PlausibleEmail("");
  }

  /** The phone rule counts characters only: ten letters pass it. */
  lemma PhoneHasNoCharacterCheck(f: ReservationForm)
    requires f.phoneNumber == "abcdefghij"
    ensures PhoneNumber !in Validate(f)
  {
  }

  /** Every party size the form accepts is charged between the base fee and 6500 pence. */
  lemma AcceptedPartySizeFee(f: ReservationForm)
    requires PartySize !in Validate(f)
    ensures PaymentService.BASE_FEE <= PaymentService.CalculateReservationFee(f.partySize) <= 6500
  {
    PaymentService.FeeMonotone(f.partySize, MAX_PARTY_SIZE);
  }

  // ------------------------------------------------------- time slots

  /** The booking time slots, in the three rows the page lists them in. */
  const TIME_SLOTS: seq<string> := EARLY_SLOTS + MIDDLE_SLOTS + LATE_SLOTS
  const EARLY_SLOTS: seq<string> := ["11:00", "11:30", "12:00", "12:30", "13:00", "13:30", "14:00", "14:30"]
  const MIDDLE_SLOTS: seq<string> := ["15:00", "15:30", "16:00", "16:30", "17:00", "17:30", "18:00", "18:30"]
  const LATE_SLOTS: seq<string> := ["19:00", "19:30", "20:00", "20:30", "21:00", "21:30", "22:00"]

  /** An `HH:mm` text. */
  predicate IsClockTime(s: string) {
    |s| == 5 && IsDigit(s[0]) && IsDigit(s[1]) && s[2] == ':' && IsDigit(s[3]) && IsDigit(s[4])
  }

  /** The value of the digit `c`. */
  function Digit(c: char): int {
    c as int - '0' as int
  }

  /** Minutes since midnight of an `HH:mm` text. */
  function MinutesOf(s: string): nat
    requires IsClockTime(s)
  {
    (Digit(s[0]) * 10 + Digit(s[1])) * 60 + Digit(s[3]) * 10 + Digit(s[4])
  }

  /** The early slots run half-hourly from 11:00. */
  lemma EarlySlotMinutes(i: nat)
    requires i < |EARLY_SLOTS|
    ensures IsClockTime(EARLY_SLOTS[i]) && MinutesOf(EARLY_SLOTS[i]) == 660 + 30 * i
  {
  }

  /** The middle slots run half-hourly from 15:00. */
  lemma MiddleSlotMinutes(i: nat)
    requires i < |MIDDLE_SLOTS|
    ensures IsClockTime(MIDDLE_SLOTS[i]) && MinutesOf(MIDDLE_SLOTS[i]) == 900 + 30 * i
  {
  }

  /** The late slots run half-hourly from 19:00. */
  lemma LateSlotMinutes(i: nat)
    requires i < |LATE_SLOTS|
    ensures IsClockTime(LATE_SLOTS[i]) && MinutesOf(LATE_SLOTS[i]) == 1140 + 30 * i
  {
  }

  /** Slot `i` is `i` half hours after 11:00. */
  lemma SlotMinutes(i: nat)
    requires i < |TIME_SLOTS|
    ensures IsClockTime(TIME_SLOTS[i]) && MinutesOf(TIME_SLOTS[i]) == 660 + 30 * i
  {
    if i < 8 {
      assert TIME_SLOTS[i] == EARLY_SLOTS[i];
      EarlySlotMinutes(i);
    } else if i < 16 {
      assert TIME_SLOTS[i] == MIDDLE_SLOTS[i - 8];
      MiddleSlotMinutes(i - 8);
    } else {
      assert TIME_SLOTS[i] == LATE_SLOTS[i - 16];
      LateSlotMinutes(i - 16);
    }
  }

  /** The slot table runs from 11:00 to 22:00 in 23 half-hour steps. */
  lemma TimeSlotsHalfHourly()
    ensures |TIME_SLOTS| == 23 && TIME_SLOTS[0] == "11:00" && TIME_SLOTS[22] == "22:00"
    ensures forall i :: 0 <= i < |TIME_SLOTS| ==> IsClockTime(TIME_SLOTS[i]) && MinutesOf(TIME_SLOTS[i]) == 660 + 30 * i
    ensures forall i, j :: 0 <= i < j < |TIME_SLOTS| ==> MinutesOf(TIME_SLOTS[i]) < MinutesOf(TIME_SLOTS[j])
  {
    forall i | 0 <= i < |TIME_SLOTS|
      ensures IsClockTime(TIME_SLOTS[i]) && MinutesOf(TIME_SLOTS[i]) == 660 + 30 * i
    {
      SlotMinutes(i);
    }
  }

  /** Every slot satisfies the time rule. */
  lemma TimeSlotsPassTimeRule(f: ReservationForm)
    requires f.time in TIME_SLOTS
    ensures Time !in Validate(f)
  {
  }
}
