/**
 * The experience form: initialisation from a stored experience, the change
 * handler that clears the end date when "current" is checked, and the submit
 * that builds the JSON payload and picks the request method and URL.
 */
module ExperienceModal {

  import opened Wrappers
  import opened Http
  import opened Schema

  /** `formData`: text boxes, two date inputs and the "currently work here" box. */
  datatype ExperienceForm = ExperienceForm(
    title: string, company: string, location: string,
    startDate: string, endDate: string, isCurrent: bool, description: string)

  const EmptyForm := ExperienceForm("", "", "", "", "", false, "")

  /** The `experience` prop, as fetched: every field may be missing; dates are JSON strings. */
  datatype LoadedExperience = LoadedExperience(
    id: string, title: Option<string>, company: Option<string>, location: Option<string>,
    startDate: Option<string>, endDate: Option<string>, isCurrent: Option<bool>,
    description: Option<string>)

  /**
   * `formatDateForInput`. The date-formatting call it makes names a function
   * the file does not import, so that call always throws and the catch answers
   * "": every input, present or not, gives the empty string.
   */
  function FormatDateForInput(date: Option<string>): (r: string)
    ensures r == ""
  {
    // a missing date answers "" before the call; a present one reaches the call, which throws
    ""
  }

  /** The effect on open: an edit form takes each text field or "", a new form is empty. */
  function InitForm(experience: Option<LoadedExperience>): (form: ExperienceForm)
    ensures experience.None? ==> form == EmptyForm
    ensures experience.Some? ==>
      var e := experience.value;
      form.title == OrEmpty(e.title) && form.company == OrEmpty(e.company) &&
      form.location == OrEmpty(e.location) && form.description == OrEmpty(e.description) &&
      form.isCurrent == e.isCurrent.GetOr(false)
    ensures form.startDate == "" && form.endDate == ""
  {
    match experience
    case None => EmptyForm
    case Some(e) =>
      ExperienceForm(OrEmpty(e.title), OrEmpty(e.company), OrEmpty(e.location),
                     FormatDateForInput(e.startDate), FormatDateForInput(e.endDate),
                     e.isCurrent.GetOr(false), OrEmpty(e.description))
  }

  datatype TextField = Title | Company | Location | StartDate | EndDate | Description

  /** An `onChange` event: a text or date box, or the "current" checkbox. */
  datatype ChangeEvent = TextInput(name: TextField, value: string) | CurrentCheckbox(checked: bool)

  function TextOf(form: ExperienceForm, f: TextField): string {
    match f
    case Title => form.title
    case Company => form.company
    case Location => form.location
    case StartDate => form.startDate
    case EndDate => form.endDate
    case Description => form.description
  }

  function SetText(form: ExperienceForm, f: TextField, value: string): (r: ExperienceForm)
    ensures TextOf(r, f) == value && r.isCurrent == form.isCurrent
    ensures forall g :: g != f ==> TextOf(r, g) == TextOf(form, g)
  {
    match f
    case Title => form.(title := value)
    case Company => form.(company := value)
    case Location => form.(location := value)
    case StartDate => form.(startDate := value)
    case EndDate => form.(endDate := value)
    case Description => form.(description := value)
  }

  /**
   * `handleChange`: the named field takes the new value; checking the box
   * also clears the end date, unchecking it touches nothing else.
   */
  function HandleChange(form: ExperienceForm, e: ChangeEvent): (r: ExperienceForm)
    ensures e.TextInput? ==>
      (TextOf(r, e.name) == e.value && r.isCurrent == form.isCurrent &&
       forall g :: g != e.name ==> TextOf(r, g) == TextOf(form, g))
    ensures e == CurrentCheckbox(true) ==>
      (r.isCurrent && r.endDate == "" &&
       forall g :: g != EndDate ==> TextOf(r, g) == TextOf(form, g))
    ensures e == CurrentCheckbox(false) ==> r == form.(isCurrent := false)
  {
    match e
    case TextInput(name, value) => SetText(form, name, value)
    case CurrentCheckbox(checked) =>
      if checked then form.(isCurrent := true, endDate := "") else form.(isCurrent := false)
  }

  // ---------------------------------------------------------------------------
  // submit

  /** A payload date: `null`, or `new Date(input).toISOString()` of a filled date box. */
  datatype PayloadDate = NullDate | IsoDate(input: string)

  /** The JSON body; `endDate == None` is a payload with no `endDate` key at all. */
  datatype ExperiencePayload = ExperiencePayload(
    title: string, company: string, location: string,
    startDate: PayloadDate, endDate: Option<PayloadDate>, isCurrent: bool, description: string)

  function DateOf(input: string): PayloadDate {
    if input == "" then NullDate else IsoDate(input)
  }

  /** The payload of `handleSubmit`: built from the form, then `endDate` deleted when current. */
  function Payload(form: ExperienceForm): (p: ExperiencePayload)
    ensures p.startDate == NullDate <==> form.startDate == ""
    ensures form.startDate != "" ==> p.startDate == IsoDate(form.startDate)
    ensures p.endDate.None? <==> form.isCurrent
    ensures !form.isCurrent ==> (p.endDate == Some(NullDate) <==> form.endDate == "")
    ensures !form.isCurrent && form.endDate != "" ==> p.endDate == Some(IsoDate(form.endDate))
    ensures p.title == form.title && p.company == form.company && p.location == form.location &&
      p.isCurrent == form.isCurrent && p.description == form.description
  {
    var built := ExperiencePayload(
      form.title, form.company, form.location, DateOf(form.startDate),
      Some(if form.isCurrent || form.endDate == "" then NullDate else IsoDate(form.endDate)),
      form.isCurrent, form.description);
    if built.isCurrent then built.(endDate := None) else built
  }

  const CollectionUrl := "/api/experience"

  /** `handleSubmit`: nothing while saving; otherwise PUT to the record's URL when editing, POST when adding. */
  function Submit(form: ExperienceForm, experience: Option<LoadedExperience>, isSaving: bool)
    : (r: Option<Request<ExperiencePayload>>)
    ensures r.None? <==> isSaving
    ensures r.Some? ==> (r.value.verb == Put <==> experience.Some?) && (r.value.verb == Post <==> experience.None?)
    ensures r.Some? && experience.Some? ==> r.value.url == CollectionUrl + "/" + experience.value.id
    ensures r.Some? && experience.None? ==> r.value.url == CollectionUrl
    ensures r.Some? ==> r.value.body == Payload(form)
  {
    if isSaving then None
    else match experience
      case Some(e) => Some(Request(Put, CollectionUrl + "/" + e.id, Payload(form)))
      case None => Some(Request(Post, CollectionUrl, Payload(form)))
  }

  /** After checking "current", whatever end date was typed before, the payload carries none. */
  lemma CheckedCurrentDropsEndDate(form: ExperienceForm, typed: string)
    ensures Payload(HandleChange(HandleChange(form, TextInput(EndDate, typed)), CurrentCheckbox(true))).endDate.None?
  {
  }

  /** Unchecking "current" after checking it leaves an empty end date, which is sent as null. */
  lemma UncheckedCurrentSendsNullEndDate(form: ExperienceForm)
    ensures Payload(HandleChange(HandleChange(form, CurrentCheckbox(true)), CurrentCheckbox(false))).endDate == Some(NullDate)
  {
  }

  /**
   * Opening a stored experience and saving it unedited sends a null start
   * date, since the form starts with both date boxes empty.
   */
  lemma EditUnchangedSendsNullStart(e: LoadedExperience)
    ensures Submit(InitForm(Some(e)), Some(e), false).value.body.startDate == NullDate
  {
  }
}
