/**
 * The contact form of the browser client: its initial values and its
 * validation rules. Only the name, the email and the message are checked.
 */
module ContactPage {
  import opened Text
  import opened FormRules
  import ReservationsPage

  datatype ContactForm = ContactForm(name: string, email: string, phone: string, subject: string, message: string)

  function InitialValues(): (f: ContactForm)
    ensures f.name == "" && f.email == "" && f.phone == "" && f.subject == "" && f.message == ""
  {
    ContactForm("", "", "", "", "")
  }

  const NAME_MESSAGE := "Name must have at least 2 letters"
  const EMAIL_MESSAGE := "Invalid email"
  const MESSAGE_MESSAGE := "Message must be at least 10 characters"

  /** The names of the fields the form validates (`name`, `email`, `message`). */
  datatype Field = Name | Email | Message

  const FIELDS: set<Field> := {Name, Email, Message}

  /** Whether the rule of `field` rejects the form's value for it. */
  predicate Fails(f: ContactForm, field: Field) {
    match field
    case Name => ShorterThan(f.name, 2)
    case Email => !MatchesEmailPattern(f.email)
    case Message => ShorterThan(f.message, 10)
  }

  /** The message the rule of `field` shows. */
  function ErrorText(field: Field): string {
    match field
    case Name => NAME_MESSAGE
    case Email => EMAIL_MESSAGE
    case Message => MESSAGE_MESSAGE
  }

  /** The form's error map: the message of each field whose rule fails, and nothing else. */
  function Validate(f: ContactForm): (errors: map<Field, string>)
    ensures forall k :: k in errors <==> Fails(f, k)
    ensures forall k :: k in errors ==> errors[k] == ErrorText(k)
  {
    map k | k in FIELDS && Fails(f, k) :: ErrorText(k)
  }

  /** Each field is in the error map exactly when its value breaks the rule as the page states it. */
  lemma ValidateRules(f: ContactForm)
    ensures Name in Validate(f) <==> Utf16Length(f.name) < 2
    ensures Email in Validate(f) <==> !PlausibleEmail(f.email)
    ensures Message in Validate(f) <==> Utf16Length(f.message) < 10
  {
    EmailPatternIff(f.email);
  }

  /** The phone number and the subject are never checked. */
  lemma PhoneAndSubjectUnchecked(f: ContactForm, phone: string, subject: string)
    ensures Validate(f.(phone := phone, subject := subject)) == Validate(f)
  {
  }

  /** The untouched form fails all three rules. */
  lemma InitialFormErrors()
    ensures Validate(InitialValues()).Keys == {Name, Email, Message}
  {
    ValidateRules(InitialValues());
  }

  /** The contact form accepts an email exactly when the reservation form does, with the same message otherwise. */
  lemma EmailRuleAgrees(c: ContactForm, r: ReservationsPage.ReservationForm)
    requires c.email == r.email
    ensures Email in Validate(c) <==> ReservationsPage.Email in ReservationsPage.Validate(r)
    ensures Email in Validate(c) ==> Validate(c)[Email] == ReservationsPage.Validate(r)[ReservationsPage.Email]
  {
    ValidateRules(c);
    ReservationsPage.ContactDetailRules(r);
  }
}
