/** The About document (a singleton) and its embedded education entries. */
module AboutModel {

  import opened Wrappers
  import opened Schema

  datatype Education = Education(degree: string, institution: string, year: string)

  datatype About = About(bio: string, skills: seq<string>, education: seq<Education>, resumeLink: string)

  /** The education sub-schema: degree and institution required, at most 100 UTF-16 code units; year at most 10. */
  predicate EducationValid(e: Education) {
    && Required(Some(e.degree)) && MaxLength(e.degree, 100)
    && Required(Some(e.institution)) && MaxLength(e.institution, 100)
    && MaxLength(e.year, 10)
  }

  predicate AboutValid(a: About) {
    && MaxLength(a.bio, 1000)
    && (forall i :: 0 <= i < |a.skills| ==> MaxLength(a.skills[i], 50))
    && (forall i :: 0 <= i < |a.education| ==> EducationValid(a.education[i]))
    && MaxLength(a.resumeLink, 500)
  }

  /** The document GET creates when there is none. */
  const EmptyAbout := About("", [], [], "")

  /** The four fields as JSON carries them, to the page or in a PUT body; any may be missing or null. */
  datatype AboutData = AboutData(
    bio: Option<string>,
    skills: Option<seq<string>>,
    education: Option<seq<Education>>,
    resumeLink: Option<string>)

  /**
   * `x.bio || ""`, `x.skills || []`, `x.education || []`, `x.resumeLink || ""`:
   * the page's form on load and the document a PUT writes.
   */
  function WithDefaults(data: AboutData): (a: About)
    ensures a.bio == OrEmpty(data.bio) && a.resumeLink == OrEmpty(data.resumeLink)
    ensures data.skills.Some? ==> a.skills == data.skills.value
    ensures data.skills.None? ==> a.skills == []
    ensures data.education.Some? ==> a.education == data.education.value
    ensures data.education.None? ==> a.education == []
  {
    About(OrEmpty(data.bio), data.skills.GetOr([]), data.education.GetOr([]), OrEmpty(data.resumeLink))
  }
}
