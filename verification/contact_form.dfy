/** The lead-capture form record of the contact modal, its fixed option catalogs,
    the single-field edit and the step-1 gate (components/ui/ContactModal.tsx). */
module ContactForm {
  import ServiceList

  /** The service labels offered as toggle buttons on step 2. */
  const Services: seq<string> := [
    "Public Relations", "Influencer Marketing", "Event Management", "Digital Marketing",
    "Brand Strategy", "Crisis Communications", "Content Creation", "Other"
  ]

  /** The budget options of the step-2 select, after its empty placeholder option. */
  const BudgetRanges: seq<string> := [
    "Under $10,000", "$10,000 - $25,000", "$25,000 - $50,000",
    "$50,000 - $100,000", "$100,000+", "Not sure yet"
  ]

  /** The timeline options of the step-2 select, after its empty placeholder option. */
  const Timelines: seq<string> := [
    "ASAP", "Within 1 month", "1-3 months", "3-6 months", "6+ months", "Flexible"
  ]

  datatype FormData = FormData(
    // required, step 1
    name: string, email: string, company: string, phone: string,
    // optional, step 2
    services: seq<string>, budget: string, timeline: string, message: string, referral: string)

  /** The form as first rendered, and as restored after a completed submission. */
  const Empty: FormData := FormData("", "", "", "", [], "", "", "", "")

  /** The `name` attribute of each input, select and textarea that reports to
      `handleInputChange`; the services are edited only by toggling. */
  datatype Field = Name | Email | Company | Phone | Budget | Timeline | Message | Referral {
    /** The field is rendered on step 1; the others on step 2. */
    predicate OnFirstStep() {
      this == Name || this == Email || this == Company || this == Phone
    }
  }

  /** Reads the value of one text field. */
  function Get(f: FormData, field: Field): string {
    match field
    case Name => f.name
    case Email => f.email
    case Company => f.company
    case Phone => f.phone
    case Budget => f.budget
    case Timeline => f.timeline
    case Message => f.message
    case Referral => f.referral
  }

  /** `handleInputChange`: `{ ...prev, [name]: value }`. */
  function SetField(f: FormData, field: Field, value: string): (r: FormData)
    ensures Get(r, field) == value
    ensures forall other :: other != field ==> Get(r, other) == Get(f, other)
    ensures r.services == f.services
  {
    match field
    case Name => f.(name := value)
    case Email => f.(email := value)
    case Company => f.(company := value)
    case Phone => f.(phone := value)
    case Budget => f.(budget := value)
    case Timeline => f.(timeline := value)
    case Message => f.(message := value)
    case Referral => f.(referral := value)
  }

  /** Two forms agree on every text field and on the services list only if they are equal. */
  lemma FieldsDetermineForm(f: FormData, g: FormData)
    requires forall field :: Get(f, field) == Get(g, field)
    requires f.services == g.services
    ensures f == g
  {
    assert Get(f, Name) == Get(g, Name) && Get(f, Email) == Get(g, Email);
    assert Get(f, Company) == Get(g, Company) && Get(f, Phone) == Get(g, Phone);
    assert Get(f, Budget) == Get(g, Budget) && Get(f, Timeline) == Get(g, Timeline);
    assert Get(f, Message) == Get(g, Message) && Get(f, Referral) == Get(g, Referral);
  }

  /** Writing back the value a field already holds changes nothing, and a later write
      to the same field overrides an earlier one. */
  lemma SetFieldLaws(f: FormData, field: Field, v: string, w: string)
    ensures SetField(f, field, Get(f, field)) == f
    ensures SetField(SetField(f, field, v), field, w) == SetField(f, field, w)
  {
    FieldsDetermineForm(SetField(f, field, Get(f, field)), f);
    FieldsDetermineForm(SetField(SetField(f, field, v), field, w), SetField(f, field, w));
  }

  /** JavaScript truthiness of a string: only the empty string is falsy, so a
      whitespace-only value counts as filled in. */
  predicate Truthy(s: string) {
    |s| > 0
  }

  /** `isStep1Valid`: the four required fields are all truthy. */
  predicate IsStep1Valid(f: FormData) {
    Truthy(f.name) && Truthy(f.email) && Truthy(f.company) && Truthy(f.phone)
  }

  /** The gate fails exactly when some required field is empty. */
  lemma GateFailsIffRequiredEmpty(f: FormData)
    ensures !IsStep1Valid(f) <==> exists field: Field :: field.OnFirstStep() && Get(f, field) == ""
  {
    if !IsStep1Valid(f) {
      if f.name == "" { assert Name.OnFirstStep() && Get(f, Name) == ""; }
      else if f.email == "" { assert Email.OnFirstStep() && Get(f, Email) == ""; }
      else if f.company == "" { assert Company.OnFirstStep() && Get(f, Company) == ""; }
      else { assert Phone.OnFirstStep() && Get(f, Phone) == ""; }
    }
  }

  /** The optional step-2 fields have no effect on the gate. */
  lemma GateIgnoresOptionalFields(f: FormData, field: Field, v: string, service: string)
    requires !field.OnFirstStep()
    ensures IsStep1Valid(SetField(f, field, v)) == IsStep1Valid(f)
    ensures IsStep1Valid(f.(services := ServiceList.Toggle(f.services, service))) == IsStep1Valid(f)
  {
  }

  /** A whitespace-only value passes the gate; an empty company fails it until filled. */
  lemma GateExamples()
    ensures IsStep1Valid(FormData(" ", " ", " ", " ", [], "", "", "", ""))
    ensures !IsStep1Valid(FormData("A", "a@x.com", "", "1", [], "", "", "", ""))
    ensures IsStep1Valid(SetField(FormData("A", "a@x.com", "", "1", [], "", "", "", ""), Company, "Acme"))
  {
  }

  /** The values a select can hold: its empty placeholder or one of its options. */
  predicate SelectValue(v: string, options: seq<string>) {
    v == "" || v in options
  }

  /** What the rendered controls can put into a form: labels only from the service
      catalog and each at most once, select values only from their option lists. */
  predicate WellFormed(f: FormData) {
    && ServiceList.NoDuplicates(f.services)
    && (forall s :: s in f.services ==> s in Services)
    && SelectValue(f.budget, BudgetRanges)
    && SelectValue(f.timeline, Timelines)
  }

  lemma EmptyWellFormed()
    ensures WellFormed(Empty) && !IsStep1Valid(Empty)
  {
  }
}
