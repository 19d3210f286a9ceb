/**
 * The project form: its initialisation from a stored project, field edits,
 * and the submit that turns the comma-separated technologies text into a
 * list and picks the request method and URL.
 */
module ProjectModal {

  import opened Wrappers
  import opened Text
  import opened Lists
  import opened Http
  import opened Schema

  /** `formData`: every field is the text of an input box. */
  datatype ProjectForm = ProjectForm(
    title: string, description: string, technologies: string,
    liveUrl: string, githubUrl: string, imageUrl: string)

  const EmptyForm := ProjectForm("", "", "", "", "", "")

  /** What a loaded project may carry as technologies: an array, a string, or nothing. */
  datatype Technologies = TechList(items: seq<string>) | TechText(text: string) | TechMissing

  /** The `project` prop, as fetched. */
  datatype LoadedProject = LoadedProject(
    id: string, title: Option<string>, description: Option<string>, technologies: Technologies,
    liveUrl: Option<string>, githubUrl: Option<string>, imageUrl: Option<string>)

  // ---------------------------------------------------------------------------
  // technologies text <-> list

  const TechSeparator := ", "

  /** An entry the parser hands back as it is: non-empty, trimmed and comma-free. */
  predicate CleanEntry(t: string) {
    t != "" && IsTrimmed(t) && ',' !in t
  }

  function TrimAll(xs: seq<string>): (r: seq<string>)
    ensures |r| == |xs|
    ensures forall i :: 0 <= i < |xs| ==> r[i] == Trim(xs[i])
  {
    if xs == [] then [] else [Trim(xs[0])] + TrimAll(xs[1..])
  }

  lemma {:induction false} TrimAllAppend(xs: seq<string>, ys: seq<string>)
    ensures TrimAll(xs + ys) == TrimAll(xs) + TrimAll(ys)
  {
    if xs == [] {
      assert xs + ys == ys;
    } else {
      assert (xs + ys)[1..] == xs[1..] + ys;
      TrimAllAppend(xs[1..], ys);
    }
  }

  function NonEmpty(): string -> bool {
    (t: string) => t != ""
  }

  /** `technologies.split(",").map(t => t.trim()).filter(t => t)`. */
  function ParseTechnologies(s: string): (r: seq<string>)
    ensures forall i :: 0 <= i < |r| ==> CleanEntry(r[i])
  {
    var pieces := Split(s, ',');
    TrimmedPieces(pieces);
    Filter(TrimAll(pieces), NonEmpty())
  }

  /** Pieces of a split at commas, once trimmed, are trimmed and comma-free. */
  lemma TrimmedPieces(pieces: seq<string>)
    requires forall i :: 0 <= i < |pieces| ==> ',' !in pieces[i]
    ensures forall t :: t in TrimAll(pieces) ==> IsTrimmed(t) && ',' !in t
  {
    var trimmed := TrimAll(pieces);
    forall t | t in trimmed ensures IsTrimmed(t) && ',' !in t {
      var k :| 0 <= k < |trimmed| && trimmed[k] == t;
      assert t == Trim(pieces[k]);
      if ',' in t {
        TrimChars(pieces[k], ',');
      }
    }
  }

  /** Parsing keeps order: the entries before a comma come before those after it. */
  lemma ParseAppend(a: string, b: string)
    ensures ParseTechnologies(a + "," + b) == ParseTechnologies(a) + ParseTechnologies(b)
  {
    assert a + "," + b == a + [','] + b;
    SplitAppend(a, ',', b);
    var x, y := Split(a, ','), Split(b, ',');
    TrimAllAppend(x, y);
    FilterAppend(TrimAll(x), TrimAll(y), NonEmpty());
  }

  /** Whitespace in front of the text changes no entry. */
  lemma ParseLeadingWhitespace(c: char, t: string)
    requires IsJsWhitespace(c)
    ensures ParseTechnologies([c] + t) == ParseTechnologies(t)
  {
    SplitLeadingChar(c, t);
    var p := Split(t, ',');
    TrimLeadingWhitespace(c, p[0]);
    TrimAllFirstPiece([c] + p[0], p);
  }

  /** A first piece that trims like `p[0]` leaves the trimmed pieces as they are. */
  lemma TrimAllFirstPiece(x: string, p: seq<string>)
    requires |p| >= 1 && Trim(x) == Trim(p[0])
    ensures TrimAll([x] + p[1..]) == TrimAll(p)
  {
    TrimAllFirst(x, p[0], p[1..]);
    assert [p[0]] + p[1..] == p;
  }

  /** Splitting `[c] + t` at commas, for a character `c` that is not one. */
  lemma SplitLeadingChar(c: char, t: string)
    requires c != ','
    ensures Split([c] + t, ',') == [[c] + Split(t, ',')[0]] + Split(t, ',')[1..]
  {
    assert ([c] + t)[1..] == t;
  }

  /** Entries that trim alike leave the trimmed list alike. */
  lemma TrimAllFirst(a: string, b: string, rest: seq<string>)
    requires Trim(a) == Trim(b)
    ensures TrimAll([a] + rest) == TrimAll([b] + rest)
  {
    TrimAllCons(a, rest);
    TrimAllCons(b, rest);
  }

  lemma TrimAllCons(x: string, rest: seq<string>)
    ensures TrimAll([x] + rest) == [Trim(x)] + TrimAll(rest)
  {
    assert ([x] + rest)[1..] == rest;
  }

  /** A clean entry alone parses to itself. */
  lemma ParseCleanEntry(t: string)
    requires CleanEntry(t)
    ensures ParseTechnologies(t) == [t]
  {
    SplitNoSeparator(t, ',');
    TrimTrimmed(t);
    assert TrimAll([t]) == [t];
  }

  /** Round trip: joining clean entries with ", " and parsing gives them back. */
  lemma {:induction false} ParseJoin(xs: seq<string>)
    requires forall i :: 0 <= i < |xs| ==> CleanEntry(xs[i])
    ensures ParseTechnologies(Join(xs, TechSeparator)) == xs
  {
    if |xs| == 0 {
      ParseEmpty();
    } else if |xs| == 1 {
      ParseCleanEntry(xs[0]);
    } else {
      var rest := Join(xs[1..], TechSeparator);
      calc {
        ParseTechnologies(Join(xs, TechSeparator));
      == { JoinCons(xs); }
        ParseTechnologies(xs[0] + "," + ([' '] + rest));
      == { ParseAppend(xs[0], [' '] + rest); }
        ParseTechnologies(xs[0]) + ParseTechnologies([' '] + rest);
      == { ParseCleanEntry(xs[0]); ParseLeadingWhitespace(' ', rest); }
        [xs[0]] + ParseTechnologies(rest);
      == { ParseJoin(xs[1..]); }
        [xs[0]] + xs[1..];
      == { assert xs == [xs[0]] + xs[1..]; }
        xs;
      }
    }
  }

  /** An empty box gives no technologies. */
  lemma ParseEmpty()
    ensures ParseTechnologies("") == []
  {
    var pieces := Split("", ',');
    assert pieces == [""];
    assert Trim("") == "";
    var trimmed := TrimAll(pieces);
    assert trimmed == [""];
    assert !NonEmpty()(trimmed[0]);
    assert trimmed[1..] == [];
    assert Filter(trimmed, NonEmpty()) == [];
  }

  /** Joining with ", " puts a comma and then a space between the first entry and the rest. */
  lemma JoinCons(xs: seq<string>)
    requires |xs| >= 2
    ensures Join(xs, TechSeparator) == xs[0] + "," + ([' '] + Join(xs[1..], TechSeparator))
  {
  }

  /** Parsing, joining and parsing again gives the first parse: the parser normalises. */
  lemma ParseNormalises(s: string)
    ensures ParseTechnologies(Join(ParseTechnologies(s), TechSeparator)) == ParseTechnologies(s)
  {
    ParseJoin(ParseTechnologies(s));
  }

  // ---------------------------------------------------------------------------
  // form state

  /** The technologies box of an edit form: joined if an array, kept if text, else empty. */
  function TechnologiesText(t: Technologies): (r: string)
    ensures t.TechList? ==> ParseTechnologies(r) == ParseTechnologies(Join(t.items, TechSeparator))
    ensures t.TechList? && (forall i :: 0 <= i < |t.items| ==> CleanEntry(t.items[i])) ==> ParseTechnologies(r) == t.items
    ensures t.TechText? ==> r == t.text
    ensures t.TechMissing? ==> r == ""
  {
    match t
    case TechList(items) =>
      if forall i :: 0 <= i < |items| ==> CleanEntry(items[i]) then ParseJoin(items); Join(items, TechSeparator)
      else Join(items, TechSeparator)
    case TechText(text) => text
    case TechMissing => ""
  }

  /** The effect on open: an edit form takes each field or "", a new form is empty. */
  function InitForm(project: Option<LoadedProject>): (form: ProjectForm)
    ensures project.None? ==> form == EmptyForm
    ensures project.Some? ==>
      var p := project.value;
      form.title == OrEmpty(p.title) && form.description == OrEmpty(p.description) &&
      form.technologies == TechnologiesText(p.technologies) &&
      form.liveUrl == OrEmpty(p.liveUrl) && form.githubUrl == OrEmpty(p.githubUrl) &&
      form.imageUrl == OrEmpty(p.imageUrl)
  {
    match project
    case None => EmptyForm
    case Some(p) =>
      ProjectForm(OrEmpty(p.title), OrEmpty(p.description), TechnologiesText(p.technologies),
                  OrEmpty(p.liveUrl), OrEmpty(p.githubUrl), OrEmpty(p.imageUrl))
  }

  datatype Field = Title | Description | TechnologiesField | LiveUrl | GithubUrl | ImageUrl

  function FieldOf(form: ProjectForm, f: Field): string {
    match f
    case Title => form.title
    case Description => form.description
    case TechnologiesField => form.technologies
    case LiveUrl => form.liveUrl
    case GithubUrl => form.githubUrl
    case ImageUrl => form.imageUrl
  }

  /** `handleChange`: only the named field takes the new value. */
  function ChangeField(form: ProjectForm, name: Field, value: string): (r: ProjectForm)
    ensures FieldOf(r, name) == value
    ensures forall f :: f != name ==> FieldOf(r, f) == FieldOf(form, f)
  {
    match name
    case Title => form.(title := value)
    case Description => form.(description := value)
    case TechnologiesField => form.(technologies := value)
    case LiveUrl => form.(liveUrl := value)
    case GithubUrl => form.(githubUrl := value)
    case ImageUrl => form.(imageUrl := value)
  }

  // ---------------------------------------------------------------------------
  // submit

  /** The JSON body: the form with technologies as a list. */
  datatype ProjectPayload = ProjectPayload(
    title: string, description: string, technologies: seq<string>,
    liveUrl: string, githubUrl: string, imageUrl: string)

  const CollectionUrl := "/api/project"

  /** `handleSubmit`: nothing while saving; otherwise PUT to the project's URL when editing, POST when adding. */
  function Submit(form: ProjectForm, project: Option<LoadedProject>, isSaving: bool): (r: Option<Request<ProjectPayload>>)
    ensures r.None? <==> isSaving
    ensures r.Some? ==> (r.value.verb == Put <==> project.Some?) && (r.value.verb == Post <==> project.None?)
    ensures r.Some? && project.Some? ==> r.value.url == CollectionUrl + "/" + project.value.id
    ensures r.Some? && project.None? ==> r.value.url == CollectionUrl
    ensures r.Some? ==>
      var b := r.value.body;
      b.title == form.title && b.description == form.description &&
      b.liveUrl == form.liveUrl && b.githubUrl == form.githubUrl && b.imageUrl == form.imageUrl &&
      b.technologies == ParseTechnologies(form.technologies)
  {
    if isSaving then None
    else
      var body := ProjectPayload(form.title, form.description, ParseTechnologies(form.technologies),
                                 form.liveUrl, form.githubUrl, form.imageUrl);
      match project
      case Some(p) => Some(Request(Put, CollectionUrl + "/" + p.id, body))
      case None => Some(Request(Post, CollectionUrl, body))
  }

  /** Opening a stored project and saving it unedited sends back its technologies. */
  lemma EditUnchangedKeepsTechnologies(p: LoadedProject)
    requires p.technologies.TechList?
    requires forall i :: 0 <= i < |p.technologies.items| ==> CleanEntry(p.technologies.items[i])
    ensures Submit(InitForm(Some(p)), Some(p), false).value.body.technologies == p.technologies.items
  {
  }
}
