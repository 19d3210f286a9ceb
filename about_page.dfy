/**
 * The About page's form state: loading the document into the form, the
 * text fields, the skill list (trimmed, duplicate-free append; remove) and
 * the education list (guarded append of a draft, edit at an index, remove
 * at an index). Each handler is one step from the old state to the new.
 */
module AboutPage {

  import opened Wrappers
  import opened Text
  import opened Schema
  import opened Lists
  import opened AboutModel

  /** The document as the server returns it, every field present. */
  function DataOf(a: About): AboutData {
    AboutData(Some(a.bio), Some(a.skills), Some(a.education), Some(a.resumeLink))
  }

  /** Loading a complete document shows exactly that document, empty strings included. */
  lemma LoadStoredDocument(a: About)
    ensures WithDefaults(DataOf(a)) == a
  {
  }

  /** What GET creates on an empty store loads as an empty form. */
  lemma LoadMissingEverything()
    ensures WithDefaults(AboutData(None, None, None, None)) == EmptyAbout
  {
  }

  // ---------------------------------------------------------------------------
  // text fields

  datatype TextField = Bio | ResumeLink

  /** `handleChange`: the named text field takes the typed value. */
  function ChangeText(form: About, field: TextField, value: string): (r: About)
    ensures field == Bio ==> r.bio == value && r.resumeLink == form.resumeLink
    ensures field == ResumeLink ==> r.resumeLink == value && r.bio == form.bio
    ensures r.skills == form.skills && r.education == form.education
  {
    match field
    case Bio => form.(bio := value)
    case ResumeLink => form.(resumeLink := value)
  }

  // ---------------------------------------------------------------------------
  // skills

  /** The form together with the new-skill input box. */
  datatype SkillEditor = SkillEditor(form: About, newSkill: string)

  predicate Distinct(s: seq<string>) {
    forall i, j :: 0 <= i < j < |s| ==> s[i] != s[j]
  }

  /**
   * `handleAddSkill`: the trimmed input is appended when it is not empty and
   * not yet listed, and the input is then cleared; otherwise nothing changes.
   */
  function AddSkill(ed: SkillEditor): (r: SkillEditor)
    ensures var skill := Trim(ed.newSkill);
      var accepted := skill != "" && skill !in ed.form.skills;
      && (accepted ==> r.form.skills == ed.form.skills + [skill] && r.newSkill == "")
      && (!accepted ==> r == ed)
    ensures r.form.bio == ed.form.bio && r.form.education == ed.form.education
    ensures r.form.resumeLink == ed.form.resumeLink
  {
    var skill := Trim(ed.newSkill);
    if skill != "" && skill !in ed.form.skills then
      SkillEditor(ed.form.(skills := ed.form.skills + [skill]), "")
    else ed
  }

  /** A duplicate-free skill list stays duplicate-free, and every added skill is trimmed and non-empty. */
  lemma AddSkillKeepsDistinct(ed: SkillEditor)
    requires Distinct(ed.form.skills)
    ensures Distinct(AddSkill(ed).form.skills)
    ensures forall s :: s in AddSkill(ed).form.skills && s !in ed.form.skills ==> s != "" && IsTrimmed(s)
  {
    var r := AddSkill(ed).form.skills;
    if r != ed.form.skills {
      forall i, j | 0 <= i < j < |r| ensures r[i] != r[j] {
        if j == |r| - 1 {
          assert r[i] in ed.form.skills;
        }
      }
    }
  }

  /** Pressing Add twice adds once: after a success the input is empty. */
  lemma AddSkillTwice(ed: SkillEditor)
    ensures AddSkill(AddSkill(ed)) == AddSkill(ed)
  {
  }

  /** `handleRemoveSkill`: every entry equal to `skill` goes; the rest keep their order. */
  function RemoveSkill(form: About, skill: string): (r: About)
    ensures skill !in r.skills
    ensures forall s :: s != skill ==> multiset(r.skills)[s] == multiset(form.skills)[s]
    ensures skill !in form.skills ==> r == form
    ensures r.bio == form.bio && r.education == form.education && r.resumeLink == form.resumeLink
  {
    var keep := (s: string) => s != skill;
    FilterMultisetAll(form.skills, keep);
    if skill !in form.skills then
      FilterAll(form.skills, keep);
      form.(skills := Filter(form.skills, keep))
    else form.(skills := Filter(form.skills, keep))
  }

  /** Removing a skill just added gives back the list as it was. */
  lemma RemoveAddedSkill(ed: SkillEditor)
    requires Trim(ed.newSkill) != "" && Trim(ed.newSkill) !in ed.form.skills
    ensures RemoveSkill(AddSkill(ed).form, Trim(ed.newSkill)).skills == ed.form.skills
  {
    var skill := Trim(ed.newSkill);
    var keep := (s: string) => s != skill;
    FilterAppend(ed.form.skills, [skill], keep);
    FilterAll(ed.form.skills, keep);
    assert Filter([skill], keep) == [];
  }

  // ---------------------------------------------------------------------------
  // education

  datatype EducationField = Degree | Institution | Year

  function FieldOf(e: Education, field: EducationField): string {
    match field
    case Degree => e.degree
    case Institution => e.institution
    case Year => e.year
  }

  /** `handleEducationChange`: only the named field of entry `index` changes. */
  function ChangeEducation(form: About, index: nat, field: EducationField, value: string): (r: About)
    requires index < |form.education|
    ensures |r.education| == |form.education|
    ensures FieldOf(r.education[index], field) == value
    ensures forall f :: f != field ==> FieldOf(r.education[index], f) == FieldOf(form.education[index], f)
    ensures forall j :: 0 <= j < |form.education| && j != index ==> r.education[j] == form.education[j]
    ensures r.bio == form.bio && r.skills == form.skills && r.resumeLink == form.resumeLink
  {
    var e := form.education[index];
    var changed := match field
      case Degree => e.(degree := value)
      case Institution => e.(institution := value)
      case Year => e.(year := value);
    form.(education := form.education[index := changed])
  }

  /** The form together with the draft entry typed under "Add education". */
  datatype EducationEditor = EducationEditor(form: About, draft: Education)

  const EmptyDraft := Education("", "", "")

  /**
   * `handleAddEducation`: a draft with a degree and an institution is appended
   * and the draft reset to empty fields; otherwise nothing changes.
   */
  function AddEducation(ed: EducationEditor): (r: EducationEditor)
    ensures var accepted := ed.draft.degree != "" && ed.draft.institution != "";
      && (accepted ==> r.form.education == ed.form.education + [ed.draft] && r.draft == EmptyDraft)
      && (!accepted ==> r == ed)
    ensures r.form.bio == ed.form.bio && r.form.skills == ed.form.skills
    ensures r.form.resumeLink == ed.form.resumeLink
  {
    if ed.draft.degree != "" && ed.draft.institution != "" then
      EducationEditor(ed.form.(education := ed.form.education + [ed.draft]), EmptyDraft)
    else ed
  }

  /** An entry the page lets through meets the schema's required checks on degree and institution. */
  lemma AddedEducationHasRequiredFields(ed: EducationEditor)
    ensures forall j :: |ed.form.education| <= j < |AddEducation(ed).form.education| ==>
      Required(Some(AddEducation(ed).form.education[j].degree)) &&
      Required(Some(AddEducation(ed).form.education[j].institution))
  {
  }

  /**
   * `handleRemoveEducation`: `filter((_, i) => i !== index)`. Exactly entry
   * `index` goes and the others keep their order; an index outside the list removes nothing.
   */
  function RemoveEducation(form: About, index: int): (r: About)
    ensures 0 <= index < |form.education| ==> |r.education| == |form.education| - 1
    ensures !(0 <= index < |form.education|) ==> r == form
    ensures 0 <= index < |form.education| ==> forall j :: 0 <= j < |r.education| ==>
      r.education[j] == if j < index then form.education[j] else form.education[j + 1]
    ensures r.bio == form.bio && r.skills == form.skills && r.resumeLink == form.resumeLink
  {
    if 0 <= index < |form.education| then
      form.(education := form.education[..index] + form.education[index + 1..])
    else form
  }

  /** Removing an entry just appended gives back the list as it was. */
  lemma RemoveAddedEducation(ed: EducationEditor)
    requires ed.draft.degree != "" && ed.draft.institution != ""
    ensures RemoveEducation(AddEducation(ed).form, |ed.form.education|).education == ed.form.education
  {
    var added := AddEducation(ed).form.education;
    assert added[..|ed.form.education|] == ed.form.education;
  }
}
