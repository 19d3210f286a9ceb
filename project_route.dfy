/**
 * `/api/project`: GET returns every project; POST, for a signed-in session
 * only, saves one project built from the six body fields. POST has no
 * error handling of its own: a body that is not JSON or a failed save ends
 * in the framework's 500 reply.
 */
module ProjectRoute {

  import opened Wrappers
  import opened Schema
  import opened Http
  import opened Store
  import opened ProjectModel
  import ProjectModal

  const Unauthorized := "Unauthorized"
  const Added := "Project added successfully"

  /** The parsed JSON body; a missing or null field is None. */
  datatype ProjectBody = ProjectBody(
    title: Option<string>, description: Option<string>, technologies: Option<seq<string>>,
    liveUrl: Option<string>, githubUrl: Option<string>, imageUrl: Option<string>)

  /** `new Project({ title, description, technologies, liveUrl, githubUrl, imageUrl })`, saved at `now`. */
  function Build(b: ProjectBody, id: string, now: int): (p: Project)
    ensures p.id == id && p.createdAt == now
    ensures p.title == b.title && p.description == b.description
    ensures p.liveUrl == b.liveUrl && p.githubUrl == b.githubUrl && p.imageUrl == b.imageUrl
    ensures b.technologies.Some? ==> p.technologies == b.technologies.value
    ensures b.technologies.None? ==> p.technologies == []
  {
    Project(id, b.title, b.description, b.technologies.GetOr([]), b.liveUrl, b.githubUrl, b.imageUrl, now)
  }

  predicate Saves(body: Option<ProjectBody>, id: string, now: int, storeFails: bool) {
    body.Some? && ProjectValid(Build(body.value, id, now)) && !storeFails
  }

  /** POST's reply: 401 without a session, a message once saved, and otherwise the framework's 500. */
  function PostResponse(hasSession: bool, body: Option<ProjectBody>, id: string, now: int, storeFails: bool)
    : (r: Response<Project>)
    ensures !hasSession ==> r == Response(401, ErrorMessage(Unauthorized))
    ensures hasSession && Saves(body, id, now, storeFails) ==> r == Response(200, Message(Added))
    ensures hasSession && !Saves(body, id, now, storeFails) ==> r == Response(500, NoBody)
  {
    if !hasSession then Response(401, ErrorMessage(Unauthorized))
    else if Saves(body, id, now, storeFails) then Response(200, Message(Added))
    else Response(500, NoBody)
  }

  /** The session is checked first: without one, neither the body nor the store matters. */
  lemma SessionCheckedFirst(b1: Option<ProjectBody>, b2: Option<ProjectBody>, id: string, now: int, f1: bool, f2: bool)
    ensures PostResponse(false, b1, id, now, f1) == PostResponse(false, b2, id, now, f2)
  {
  }

  /** The JSON body the project form sends for a new project. */
  function BodyOf(p: ProjectModal.ProjectPayload): ProjectBody {
    ProjectBody(Some(p.title), Some(p.description), Some(p.technologies),
                Some(p.liveUrl), Some(p.githubUrl), Some(p.imageUrl))
  }

  /**
   * A new project submitted from the form is saved, for a session and a
   * working store, exactly when its title and description are not empty:
   * the parsed technologies always pass the schema, and they are stored.
   */
  lemma FormSubmissionSaved(form: ProjectModal.ProjectForm, id: string, now: int)
    ensures
      var body := BodyOf(ProjectModal.Submit(form, None, false).value.body);
      (Saves(Some(body), id, now, false) <==> form.title != "" && form.description != "") &&
      Build(body, id, now).technologies == ProjectModal.ParseTechnologies(form.technologies)
  {
    var payload := ProjectModal.Submit(form, None, false).value.body;
    var techs := ProjectModal.ParseTechnologies(form.technologies);
    assert payload.technologies == techs && payload.title == form.title && payload.description == form.description;
    var p := Build(BodyOf(payload), id, now);
    assert p.technologies == techs;
    assert forall i :: 0 <= i < |techs| ==> Required(Some(techs[i])) by {
      forall i | 0 <= i < |techs| ensures Required(Some(techs[i])) {
        assert ProjectModal.CleanEntry(techs[i]);
      }
    }
  }

  /** The project collection. */
  class ProjectStore {
    var records: seq<Project>
    var nextId: nat

    predicate Valid()
      reads this
    {
      && (forall i :: 0 <= i < |records| ==> ProjectValid(records[i]))
      && FreshIds(IdsOf(records, ProjectId), nextId)
    }

    constructor ()
      ensures Valid() && records == []
    {
      records := [];
      nextId := 0;
    }

    /**
     * GET: every project, in store order, with no filtering. The handler has no
     * `try`, so a failing `find` ends in the framework's bare 500.
     */
    method Get(storeFails: bool) returns (r: Response<Project>)
      requires Valid()
      ensures storeFails ==> r == Response(500, NoBody)
      ensures !storeFails ==> r == Response(200, Documents(records))
      ensures !storeFails ==> forall i :: 0 <= i < |r.body.docs| ==> ProjectValid(r.body.docs[i])
    {
      if storeFails {
        return Response(500, NoBody);
      }
      r := Response(200, Documents(records));
    }

    /** POST: the store gains the built project exactly when the reply is the success message. */
    method Post(hasSession: bool, body: Option<ProjectBody>, now: int, storeFails: bool) returns (r: Response<Project>)
      requires Valid()
      modifies this
      ensures Valid()
      ensures r == PostResponse(hasSession, body, IdFor(old(nextId)), now, storeFails)
      ensures r.status == 200 ==> records == old(records) + [Build(body.value, IdFor(old(nextId)), now)]
      ensures r.status != 200 ==> records == old(records) && nextId == old(nextId)
    {
      if !hasSession {
        return Response(401, ErrorMessage(Unauthorized));
      }
      if body.None? {
        return Response(500, NoBody);
      }
      var project := Build(body.value, IdFor(nextId), now);
      if !ProjectValid(project) || storeFails {
        return Response(500, NoBody);
      }
      assert IdsOf(records + [project], ProjectId) == IdsOf(records, ProjectId) + [IdFor(nextId)];
      AppendNextId(IdsOf(records, ProjectId), nextId);
      records := records + [project];
      nextId := nextId + 1;
      r := Response(200, Message(Added));
    }
  }
}
