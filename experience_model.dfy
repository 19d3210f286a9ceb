/** The Experience document and the constraints its schema enforces on save. */
module ExperienceModel {

  import opened Wrappers
  import opened Schema

  /** Dates are the instants the store holds, kept opaque as integers. */
  datatype Experience = Experience(
    id: string,
    title: string,
    company: string,
    location: string,
    startDate: int,
    endDate: Option<int>,
    isCurrent: bool,
    description: string)

  /**
   * Title and company required, at most 100 UTF-16 code units; location at most 100;
   * description at most 1000. The start date is required, which the type
   * already guarantees; the end date is optional.
   */
  predicate ExperienceValid(e: Experience) {
    && Required(Some(e.title)) && MaxLength(e.title, 100)
    && Required(Some(e.company)) && MaxLength(e.company, 100)
    && MaxLength(e.location, 100)
    && MaxLength(e.description, 1000)
  }

  /** The schema default of `isCurrent`. */
  const DefaultIsCurrent := false

  function StartDate(e: Experience): int {
    e.startDate
  }

  function ExperienceId(e: Experience): string {
    e.id
  }
}
