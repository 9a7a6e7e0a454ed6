/** The public contact form, src/components/sections/ContactSection.tsx:
    five text fields and a submitting flag. A submit runs in two steps, the
    start before the request and the end once it has settled, so the model
    has a method for each; the fields stay editable in between. */
module ContactSection {

  datatype Field = Name | Email | Phone | Subject | Message

  datatype FormData = FormData(name: string, email: string, phone: string, subject: string, message: string)

  const Empty: FormData := FormData("", "", "", "", "")

  /** The subject choices of the select; the first is its empty placeholder. */
  const SubjectOptions: seq<string> :=
    ["", "Consulta general", "Proyecto residencial", "Proyecto comercial", "Renovación", "Otro"]

  function Get(f: FormData, field: Field): string {
    match field
    case Name => f.name
    case Email => f.email
    case Phone => f.phone
    case Subject => f.subject
    case Message => f.message
  }

  /** `{ ...prev, [name]: value }` */
  function With(f: FormData, field: Field, value: string): (r: FormData)
    ensures Get(r, field) == value
    ensures forall other :: other != field ==> Get(r, other) == Get(f, other)
  {
    match field
    case Name => f.(name := value)
    case Email => f.(email := value)
    case Phone => f.(phone := value)
    case Subject => f.(subject := value)
    case Message => f.(message := value)
  }

  /** Writing a field twice keeps the last value, and writing back what a
      field holds changes nothing. */
  lemma WithLaws(f: FormData, field: Field, a: string, b: string)
    ensures With(With(f, field, a), field, b) == With(f, field, b)
    ensures With(f, field, Get(f, field)) == f
  {
  }

  /** The browser submits the form only when the four `required` controls
      are filled in; the phone is optional. */
  predicate Submittable(f: FormData) {
    f.name != "" && f.email != "" && f.subject != "" && f.message != ""
  }

  class ContactForm {
    var formData: FormData
    var isSubmitting: bool

    constructor ()
      ensures formData == Empty && !isSubmitting
    {
      formData := Empty;
      isSubmitting := false;
    }

    /** The button is disabled exactly while a submit is in flight. */
    predicate SubmitDisabled()
      reads this
    {
      isSubmitting
    }

    /** `handleChange`: only the named field changes. */
    method HandleChange(field: Field, value: string)
      modifies this
      ensures formData == With(old(formData), field, value)
      ensures isSubmitting == old(isSubmitting)
    {
      formData := With(formData, field, value);
    }

    /** The start of `handleSubmit`: the form's data is what is sent. */
    method StartSubmit() returns (sent: FormData)
      requires Submittable(formData)
      modifies this
      ensures sent == formData == old(formData)
      ensures isSubmitting
    {
      isSubmitting := true;
      sent := formData;
    }

    /** The end of `handleSubmit`: success clears every field, failure keeps
        what the fields hold now, and either way the button is enabled. */
    method FinishSubmit(ok: bool)
      modifies this
      ensures ok ==> formData == Empty
      ensures !ok ==> formData == old(formData)
      ensures !isSubmitting
    {
      if ok {
        formData := Empty;
      }
      isSubmitting := false;
    }

    /** A submit with no typing while it is in flight. */
    method HandleSubmit(ok: bool) returns (sent: FormData)
      requires Submittable(formData)
      modifies this
      ensures sent == old(formData)
      ensures ok ==> formData == Empty
      ensures !ok ==> formData == old(formData)
      ensures !isSubmitting && !SubmitDisabled()
    {
      sent := StartSubmit();
      FinishSubmit(ok);
    }
  }

  /** Text typed while a successful submit is in flight is lost with the
      reset, while after a failed one it stays. */
  method TypingDuringSubmit(start: FormData, typed: string, ok: bool) returns (sent: FormData, after: FormData)
    requires Submittable(start)
    ensures sent == start
    ensures ok ==> after == Empty
    ensures !ok ==> after == With(start, Message, typed)
  {
    var form := new ContactForm();
    form.formData := start;
    sent := form.StartSubmit();
    form.HandleChange(Message, typed);
    form.FinishSubmit(ok);
    after := form.formData;
  }
}
