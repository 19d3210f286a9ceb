/** The Project document and the constraints its schema enforces on save. */
module ProjectModel {

  import opened Wrappers
  import opened Schema

  /**
   * A project as stored: a field the request left out stays absent.
   * `createdAt` comes from the schema's timestamps option.
   */
  datatype Project = Project(
    id: string,
    title: Option<string>,
    description: Option<string>,
    technologies: seq<string>,
    liveUrl: Option<string>,
    githubUrl: Option<string>,
    imageUrl: Option<string>,
    createdAt: int)

  /** Title and description required; every technology a required string; the URLs optional. */
  predicate ProjectValid(p: Project) {
    && Required(p.title)
    && Required(p.description)
    && (forall i :: 0 <= i < |p.technologies| ==> Required(Some(p.technologies[i])))
  }

  function ProjectId(p: Project): string {
    p.id
  }
}
