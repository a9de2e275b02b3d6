/** The contact form: one change handler for the five fields, the
    required-field check of `handleSubmit`, and the reset after the success
    alert is acknowledged. The simulated delay, the submitting flag and the
    WhatsApp, telephone and e-mail links are not modelled. */
module Contact {

  /** The `formData` state. */
  datatype Form = Form(name: string, email: string, phone: string, subject: string, message: string)

  /** The keys `handleInputChange` is called with. */
  datatype Field = Name | Email | Phone | Subject | Message

  function Get(f: Form, field: Field): string
  {
    match field
    case Name => f.name
    case Email => f.email
    case Phone => f.phone
    case Subject => f.subject
    case Message => f.message
  }

  /** The state when the screen opens, and after a reset: every field empty. */
  function EmptyForm(): (f: Form)
    ensures forall field :: Get(f, field) == ""
  {
    Form("", "", "", "", "")
  }

  /** `handleInputChange(field, value)`: `{...prev, [field]: value}`. */
  function HandleInputChange(f: Form, field: Field, value: string): (r: Form)
    ensures Get(r, field) == value
    ensures forall other :: other != field ==> Get(r, other) == Get(f, other)
  {
    match field
    case Name => f.(name := value)
    case Email => f.(email := value)
    case Phone => f.(phone := value)
    case Subject => f.(subject := value)
    case Message => f.(message := value)
  }

  /** Setting a field to the value it already has changes nothing, and the
      last of two changes to the same field wins. */
  lemma InputChangeOverwrites(f: Form, field: Field, v1: string, v2: string)
    ensures HandleInputChange(f, field, Get(f, field)) == f
    ensures HandleInputChange(HandleInputChange(f, field, v1), field, v2) == HandleInputChange(f, field, v2)
  {
  }

  /** Changes to different fields commute. */
  lemma InputChangesCommute(f: Form, a: Field, va: string, b: Field, vb: string)
    requires a != b
    ensures HandleInputChange(HandleInputChange(f, a, va), b, vb)
            == HandleInputChange(HandleInputChange(f, b, vb), a, va)
  {
  }

  datatype Outcome = Rejected | Sent

  /** Pressing send and acknowledging the result: the name, e-mail and message
      must be non-empty; a rejected form is kept, a sent one is reset. */
  function HandleSubmit(f: Form): (r: (Outcome, Form))
    ensures r.0 == Sent <==> Get(f, Name) != "" && Get(f, Email) != "" && Get(f, Message) != ""
    ensures r.0 == Rejected ==> r.1 == f
    ensures r.0 == Sent ==> forall field :: Get(r.1, field) == ""
  {
    if f.name == "" || f.email == "" || f.message == "" then (Rejected, f)
    else (Sent, EmptyForm())
  }

  /** The phone number and the subject are optional: they decide nothing. */
  lemma PhoneAndSubjectOptional(f: Form, phone: string, subject: string)
    ensures HandleSubmit(f.(phone := phone, subject := subject)).0 == HandleSubmit(f).0
  {
  }

  /** Submitting the form as it opens is rejected and leaves it empty. */
  lemma EmptyFormRejected()
    ensures HandleSubmit(EmptyForm()) == (Rejected, EmptyForm())
  {
  }
}
