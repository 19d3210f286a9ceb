/**
 * `/api/experience`: GET lists every experience, latest start first; POST
 * checks the required fields, fills in the defaults and saves one document.
 * The collection is a sequence of documents; a failure of the store is an
 * input.
 */
module ExperienceRoute {

  import opened Wrappers
  import opened Schema
  import opened Lists
  import opened Http
  import opened Store
  import opened ExperienceModel

  const MissingFields := "Title, company, and start date are required"
  const CreateFailed := "Failed to create experience"
  const FetchFailed := "Failed to fetch experiences"

  /** A date in the request body: its text and the instant `new Date(text)` gives, None for an invalid date. */
  datatype DateValue = DateValue(text: string, time: Option<int>)

  /** JavaScript truthiness of a date field of the body. */
  predicate Given(d: Option<DateValue>) {
    d.Some? && d.value.text != ""
  }

  /** The parsed JSON body; a missing or null field is None. */
  datatype ExperienceBody = ExperienceBody(
    title: Option<string>, company: Option<string>, location: Option<string>,
    startDate: Option<DateValue>, endDate: Option<DateValue>, isCurrent: Option<bool>,
    description: Option<string>)

  /** The required-field check of POST: title, company and start date present and non-empty. */
  predicate HasRequired(b: ExperienceBody) {
    Truthy(b.title) && Truthy(b.company) && Given(b.startDate)
  }

  /**
   * The document `new Experience({...})` builds. A date that does not convert
   * makes the save fail, which is None here.
   */
  function Build(b: ExperienceBody, id: string): (r: Option<Experience>)
    requires HasRequired(b)
    ensures r.Some? <==> b.startDate.value.time.Some? && (Given(b.endDate) ==> b.endDate.value.time.Some?)
    ensures r.Some? ==>
      && r.value.id == id
      && r.value.title == b.title.value && r.value.company == b.company.value
      && r.value.location == OrEmpty(b.location) && r.value.description == OrEmpty(b.description)
      && r.value.isCurrent == b.isCurrent.GetOr(DefaultIsCurrent)
      && r.value.startDate == b.startDate.value.time.value
      && (r.value.endDate.Some? <==> Given(b.endDate))
      && (Given(b.endDate) ==> r.value.endDate == b.endDate.value.time)
  {
    var start := b.startDate.value.time;
    var end := if Given(b.endDate) then b.endDate.value.time else None;
    if start.None? || (Given(b.endDate) && end.None?) then None
    else Some(Experience(id, b.title.value, b.company.value, OrEmpty(b.location), start.value, end,
                         b.isCurrent.GetOr(DefaultIsCurrent), OrEmpty(b.description)))
  }

  /** The server does not tie the end date to `isCurrent`: a current role keeps a given end date. */
  lemma EndDateKeptWhenCurrent(b: ExperienceBody, id: string)
    requires HasRequired(b) && b.startDate.value.time.Some?
    requires b.isCurrent == Some(true) && Given(b.endDate) && b.endDate.value.time.Some?
    ensures Build(b, id).Some? && Build(b, id).value.isCurrent && Build(b, id).value.endDate.Some?
  {
  }

  /** Whether the save succeeds: the body parsed, the fields are present, the dates convert, the schema holds, the store works. */
  predicate Saves(body: Option<ExperienceBody>, id: string, storeFails: bool) {
    && body.Some? && HasRequired(body.value)
    && Build(body.value, id).Some? && ExperienceValid(Build(body.value, id).value)
    && !storeFails
  }

  /** POST's reply: 400 for a missing field, 201 with the document when it is saved, 500 otherwise. */
  function PostResponse(body: Option<ExperienceBody>, id: string, storeFails: bool): (r: Response<Experience>)
    ensures r.status == 400 <==> body.Some? && !HasRequired(body.value)
    ensures r.status == 400 ==> r.body == ErrorMessage(MissingFields)
    ensures r.status == 201 <==> Saves(body, id, storeFails)
    ensures r.status == 201 ==> r.body == Document(Build(body.value, id).value) && ExperienceValid(r.body.doc)
    ensures r.status != 400 && r.status != 201 ==> r == Response(500, ErrorMessage(CreateFailed))
  {
    if body.Some? && !HasRequired(body.value) then Response(400, ErrorMessage(MissingFields))
    else if Saves(body, id, storeFails) then Response(201, Document(Build(body.value, id).value))
    else Response(500, ErrorMessage(CreateFailed))
  }

  /** A created experience takes its defaults: "" for missing texts, not current, no end date. */
  lemma PostDefaults(title: string, company: string, start: DateValue, id: string)
    requires title != "" && company != "" && start.text != "" && start.time.Some?
    requires MaxLength(title, 100) && MaxLength(company, 100)
    ensures
      var r := PostResponse(Some(ExperienceBody(Some(title), Some(company), None, Some(start), None, None, None)), id, false);
      r.status == 201 && r.body.doc.location == "" && r.body.doc.description == "" &&
      !r.body.doc.isCurrent && r.body.doc.endDate.None?
  {
  }

  /** The experience collection. */
  class ExperienceStore {
    var records: seq<Experience>
    var nextId: nat

    /** Every stored document passed the schema on save, and ids are unique. */
    predicate Valid()
      reads this
    {
      && (forall i :: 0 <= i < |records| ==> ExperienceValid(records[i]))
      && FreshIds(IdsOf(records, ExperienceId), nextId)
    }

    constructor ()
      ensures Valid() && records == []
    {
      records := [];
      nextId := 0;
    }

    /** GET: every document, latest start date first; nothing is written. */
    method Get(storeFails: bool) returns (r: Response<Experience>)
      requires Valid()
      ensures storeFails ==> r == Response(500, ErrorMessage(FetchFailed))
      ensures !storeFails ==> r.status == 200 && r.body.Documents?
      ensures !storeFails ==> multiset(r.body.docs) == multiset(records)
      ensures !storeFails ==> SortedDesc(r.body.docs, StartDate)
      ensures !storeFails ==> r.body.docs == SortDesc(records, StartDate)
    {
      if storeFails {
        return Response(500, ErrorMessage(FetchFailed));
      }
      SortDescSorted(records, StartDate);
      r := Response(200, Documents(SortDesc(records, StartDate)));
    }

    /** POST: on 201 the store gains exactly the returned document; otherwise nothing changes. */
    method Post(body: Option<ExperienceBody>, storeFails: bool) returns (r: Response<Experience>)
      requires Valid()
      modifies this
      ensures Valid()
      ensures r == PostResponse(body, IdFor(old(nextId)), storeFails)
      ensures r.status == 201 ==> records == old(records) + [r.body.doc]
      ensures r.status != 201 ==> records == old(records) && nextId == old(nextId)
    {
      r := PostResponse(body, IdFor(nextId), storeFails);
      if r.status == 201 {
        assert IdsOf(records + [r.body.doc], ExperienceId) == IdsOf(records, ExperienceId) + [IdFor(nextId)];
        AppendNextId(IdsOf(records, ExperienceId), nextId);
        records := records + [r.body.doc];
        nextId := nextId + 1;
      }
    }
  }
}
