/**
 * The résumé builder's form side: the wizard's step counter and item
 * counters, the validation of a step, the records `collectFormData` keeps,
 * the role a gallery template preselects, and the sections of the fallback
 * template `generateDefaultTemplate` writes.
 */
module ResumeBuilder {
  import opened Outcomes
  import opened Strings
  import JsRuntime

  // ------------------------------------------------------------ form records

  datatype JobRole = JobRole(id: string, name: string)

  datatype PersonalInfo = PersonalInfo(
    firstName: string, lastName: string, email: string, phone: string,
    address: string, linkedin: string, website: string, objective: string)

  datatype Experience = Experience(
    title: string, company: string, startDate: string, endDate: string,
    current: bool, description: string)

  datatype Education = Education(
    degree: string, institution: string, year: string, gpa: string, location: string)

  datatype Certification = Certification(name: string, issuer: string, year: string)

  datatype Language = Language(name: string, level: string)

  /** The object `collectFormData` returns. */
  datatype FormData = FormData(
    jobRole: Option<JobRole>,
    personalInfo: PersonalInfo,
    experience: seq<Experience>,
    education: seq<Education>,
    technical: seq<string>,
    soft: seq<string>,
    certifications: seq<Certification>,
    languages: seq<Language>)

  /**
   * One repeated form block on the page: the index written into its input
   * names when it was added, and the values of those inputs.
   */
  datatype Slot<T> = Slot(nameIndex: nat, fields: T)

  /** What an absent input reads as (`?.value || ''`, `?.checked || false`). */
  const NoExperience := Experience("", "", "", "", false, "")
  const NoEducation := Education("", "", "", "", "")
  const NoCertification := Certification("", "", "")
  const NoLanguage := Language("", "")

  predicate KeepExperience(e: Experience) { e.title != "" && e.company != "" }
  predicate KeepEducation(e: Education) { e.degree != "" && e.institution != "" }
  predicate KeepCertification(c: Certification) { c.name != "" }
  predicate KeepLanguage(l: Language) { l.name != "" }

  /**
   * The record read from the block at `position`: its inputs are looked up
   * under the names carrying `position`, so a block whose own name index
   * differs reads as all absent.
   */
  function ReadSlot<T>(slot: Slot<T>, position: nat, absent: T): T {
    if slot.nameIndex == position then slot.fields else absent
  }

  /** The records read from the blocks, in page order. */
  function ReadAll<T>(slots: seq<Slot<T>>, absent: T): (r: seq<T>)
    ensures |r| == |slots|
  {
    seq(|slots|, i requires 0 <= i < |slots| => ReadSlot(slots[i], i, absent))
  }

  /** The `forEach` over one kind of block: read each block, push the ones that pass. */
  method CollectEntries<T>(slots: seq<Slot<T>>, absent: T, keep: T -> bool) returns (kept: seq<T>)
    ensures kept == Filter(ReadAll(slots, absent), keep)
  {
    ghost var read := ReadAll(slots, absent);
    kept := [];
    for i := 0 to |slots|
      invariant kept == Filter(read[..i], keep)
    {
      var entry := ReadSlot(slots[i], i, absent);
      assert read[..i + 1] == read[..i] + [entry];
      if keep(entry) {
        kept := kept + [entry];
      }
    }
    assert read[..|slots|] == read;
  }

  /** A line of a skills box that has something other than white space. */
  predicate HasContent(line: string) { JsRuntime.Trim(line) != "" }

  /** `value ? value.split('\n').filter(skill => skill.trim()) : []`. */
  function SkillLines(raw: string): seq<string> {
    if raw == "" then [] else Filter(Split(raw, '\n'), HasContent)
  }

  /** Every skill kept is one non-blank line of the box, in the order typed. */
  lemma SkillLinesAreLines(raw: string)
    ensures forall line :: line in SkillLines(raw) <==> line in Split(raw, '\n') && HasContent(line)
    ensures forall line :: line in SkillLines(raw) ==> '\n' !in line && !JsRuntime.AllSpace(line)
  {
    if raw != "" {
      FilterMembers(Split(raw, '\n'), HasContent);
      forall line | line in SkillLines(raw) ensures !JsRuntime.AllSpace(line) {
        JsRuntime.BlankIffAllSpace(line);
      }
    } else {
      assert Split(raw, '\n') == [""];
    }
  }

  /** `collectFormData`: the role and personal details as given, the kept records and skill lines. */
  method CollectFormData(
    jobRole: Option<JobRole>, personalInfo: PersonalInfo,
    experienceSlots: seq<Slot<Experience>>, educationSlots: seq<Slot<Education>>,
    technicalRaw: string, softRaw: string,
    certificationSlots: seq<Slot<Certification>>, languageSlots: seq<Slot<Language>>)
    returns (data: FormData)
    ensures data.jobRole == jobRole && data.personalInfo == personalInfo
    ensures data.experience == Filter(ReadAll(experienceSlots, NoExperience), KeepExperience)
    ensures data.education == Filter(ReadAll(educationSlots, NoEducation), KeepEducation)
    ensures data.technical == SkillLines(technicalRaw) && data.soft == SkillLines(softRaw)
    ensures data.certifications == Filter(ReadAll(certificationSlots, NoCertification), KeepCertification)
    ensures data.languages == Filter(ReadAll(languageSlots, NoLanguage), KeepLanguage)
  {
    var experience := CollectEntries(experienceSlots, NoExperience, KeepExperience);
    var education := CollectEntries(educationSlots, NoEducation, KeepEducation);
    var certifications := CollectEntries(certificationSlots, NoCertification, KeepCertification);
    var languages := CollectEntries(languageSlots, NoLanguage, KeepLanguage);
    data := FormData(jobRole, personalInfo, experience, education,
      SkillLines(technicalRaw), SkillLines(softRaw), certifications, languages);
  }

  /** Blocks numbered by their position, as on a page where nothing was removed. */
  predicate InPlace<T>(slots: seq<Slot<T>>) {
    forall i :: 0 <= i < |slots| ==> slots[i].nameIndex == i
  }

  function Fields<T>(slots: seq<Slot<T>>): (r: seq<T>)
    ensures |r| == |slots|
  {
    seq(|slots|, i requires 0 <= i < |slots| => slots[i].fields)
  }

  /**
   * With the blocks in place, an experience is kept exactly when it has a
   * title and a company, and the kept ones stay in page order.
   */
  lemma ExperienceKept(slots: seq<Slot<Experience>>)
    requires InPlace(slots)
    ensures Filter(ReadAll(slots, NoExperience), KeepExperience) == Filter(Fields(slots), KeepExperience)
    ensures forall e :: e in Filter(ReadAll(slots, NoExperience), KeepExperience)
                    <==> e in Fields(slots) && e.title != "" && e.company != ""
  {
    assert ReadAll(slots, NoExperience) == Fields(slots);
    FilterMembers(Fields(slots), KeepExperience);
  }

  /** A block read under another index reads as absent and is never kept. */
  lemma MisnumberedSlotDropped(slots: seq<Slot<Experience>>, i: nat)
    requires i < |slots| && slots[i].nameIndex != i
    ensures ReadAll(slots, NoExperience)[i] == NoExperience
    ensures !KeepExperience(ReadAll(slots, NoExperience)[i])
  {
  }

  /**
   * After the middle of three experience blocks is removed, the last one
   * still carries index 2 but is read at position 1: it is lost even when
   * filled in.
   */
  lemma RemovedBlockLosesNext(a: Experience, c: Experience)
    requires KeepExperience(a) && KeepExperience(c)
    ensures Filter(ReadAll([Slot(0, a), Slot(2, c)], NoExperience), KeepExperience) == [a]
  {
    var read := ReadAll([Slot(0, a), Slot(2, c)], NoExperience);
    assert read == [a, NoExperience];
    assert read[..1] == [a];
    assert Filter(read[..1], KeepExperience) == Filter([], KeepExperience) + [a];
  }

  /** Read by their own index, every filled-in experience block is kept. */
  lemma OwnIndexKeepsFilled(slots: seq<Slot<Experience>>)
    ensures forall e :: e in Filter(Fields(slots), KeepExperience)
                    <==> e in Fields(slots) && e.title != "" && e.company != ""
  {
    FilterMembers(Fields(slots), KeepExperience);
  }

  // ------------------------------------------------------------- the wizard

  /** The page's step counter and the counters that number new form blocks. */
  class Wizard {
    var currentStep: int
    var experienceCount: nat
    var educationCount: nat
    var certificationCount: nat
    var languageCount: nat

    predicate Valid()
      reads this
    {
      currentStep >= 1
    }

    /** The module variables' initial values. */
    constructor ()
      ensures Valid() && currentStep == 1
      ensures experienceCount == 1 && educationCount == 1
      ensures certificationCount == 1 && languageCount == 1
    {
      currentStep := 1;
      experienceCount := 1;
      educationCount := 1;
      certificationCount := 1;
      languageCount := 1;
    }

    /** `nextStep`: one step forward exactly when the current step validates. */
    method NextStep(stepValid: bool)
      requires Valid()
      modifies this
      ensures Valid()
      ensures currentStep == if stepValid then old(currentStep) + 1 else old(currentStep)
      ensures experienceCount == old(experienceCount) && educationCount == old(educationCount)
      ensures certificationCount == old(certificationCount) && languageCount == old(languageCount)
    {
      if stepValid {
        currentStep := currentStep + 1;
      }
    }

    /** `previousStep`: one step back, never below the first step. */
    method PreviousStep()
      requires Valid()
      modifies this
      ensures Valid()
      ensures currentStep == if old(currentStep) > 1 then old(currentStep) - 1 else old(currentStep)
      ensures experienceCount == old(experienceCount) && educationCount == old(educationCount)
      ensures certificationCount == old(certificationCount) && languageCount == old(languageCount)
    {
      if currentStep > 1 {
        currentStep := currentStep - 1;
      }
    }

    /** `addExperienceItem`: the new block takes the counter as its index; the counter moves on. */
    method AddExperienceItem() returns (nameIndex: nat)
      modifies this
      ensures nameIndex == old(experienceCount) && experienceCount == old(experienceCount) + 1
      ensures currentStep == old(currentStep) && educationCount == old(educationCount)
      ensures certificationCount == old(certificationCount) && languageCount == old(languageCount)
    {
      nameIndex := experienceCount;
      experienceCount := experienceCount + 1;
    }

    /** `addEducationItem`. */
    method AddEducationItem() returns (nameIndex: nat)
      modifies this
      ensures nameIndex == old(educationCount) && educationCount == old(educationCount) + 1
      ensures currentStep == old(currentStep) && experienceCount == old(experienceCount)
      ensures certificationCount == old(certificationCount) && languageCount == old(languageCount)
    {
      nameIndex := educationCount;
      educationCount := educationCount + 1;
    }

    /** `addCertificationItem`. */
    method AddCertificationItem() returns (nameIndex: nat)
      modifies this
      ensures nameIndex == old(certificationCount) && certificationCount == old(certificationCount) + 1
      ensures currentStep == old(currentStep) && experienceCount == old(experienceCount)
      ensures educationCount == old(educationCount) && languageCount == old(languageCount)
    {
      nameIndex := certificationCount;
      certificationCount := certificationCount + 1;
    }

    /** `addLanguageItem`. */
    method AddLanguageItem() returns (nameIndex: nat)
      modifies this
      ensures nameIndex == old(languageCount) && languageCount == old(languageCount) + 1
      ensures currentStep == old(currentStep) && experienceCount == old(experienceCount)
      ensures educationCount == old(educationCount) && certificationCount == old(certificationCount)
    {
      nameIndex := languageCount;
      languageCount := languageCount + 1;
    }
  }

  /** A step passes when every required field is non-blank, and the first step also needs a role. */
  predicate StepPasses(step: int, required: seq<string>, roleSelected: bool) {
    (forall i :: 0 <= i < |required| ==> JsRuntime.Trim(required[i]) != "")
    && !(step == 1 && !roleSelected)
  }

  /** `validateCurrentStep`: flags each blank required field, then checks the role on step 1. */
  method ValidateCurrentStep(step: int, required: seq<string>, roleSelected: bool) returns (ok: bool)
    ensures ok == StepPasses(step, required, roleSelected)
  {
    var isValid := true;
    for i := 0 to |required|
      invariant isValid == (forall k :: 0 <= k < i ==> JsRuntime.Trim(required[k]) != "")
    {
      if JsRuntime.Trim(required[i]) == "" {
        isValid := false;
      }
    }
    if step == 1 && !roleSelected {
      return false;
    }
    return isValid;
  }

  /** A field of nothing but white space stops the wizard on any step. */
  lemma BlankFieldBlocks(step: int, required: seq<string>, roleSelected: bool, i: nat)
    requires i < |required| && JsRuntime.AllSpace(required[i])
    ensures !StepPasses(step, required, roleSelected)
  {
    JsRuntime.BlankIffAllSpace(required[i]);
  }

  // ------------------------------------------------------ template parameter

  /** The gallery templates that preselect a role, and the role each selects. */
  const TemplateRoles: map<string, string> := map[
    "developer-modern" := "full-stack-developer",
    "backend-technical" := "backend-developer",
    "analyst-focus" := "data-analyst",
    "bi-analyst" := "business-analyst",
    "mobile-cross" := "mobile-developer",
    "ios-native" := "ios-developer"]

  /** `checkTemplateParameter`: the role to select for the `template` query parameter, if any. */
  function RoleForTemplate(template: Option<string>): (r: Option<string>)
    ensures r.Some? <==> template.Some? && template.value in TemplateRoles
    ensures r.Some? ==> r.value == TemplateRoles[template.value]
  {
    if template.Some? && template.value != "" && template.value in TemplateRoles
    then Some(TemplateRoles[template.value]) else None
  }

  /** No two templates select the same role. */
  lemma TemplateRolesDistinct(t1: string, t2: string)
    requires t1 in TemplateRoles && t2 in TemplateRoles && t1 != t2
    ensures TemplateRoles[t1] != TemplateRoles[t2]
  {
  }

  // --------------------------------------------------------- default template

  /** A titled part of the fallback résumé, with its entries' lines in order. */
  datatype Section = Section(heading: string, entries: seq<seq<string>>)

  /** The fallback résumé without its markup: header lines, then the two columns' sections. */
  datatype Document = Document(
    name: string, role: string, contacts: seq<string>,
    main: seq<Section>, side: seq<Section>)

  /** `a || fallback` on strings. */
  function OrElse(a: string, fallback: string): (r: string)
    ensures r == if a == "" then fallback else a
  {
    if a != "" then a else fallback
  }

  /** The inner `formatDate`: "" for an empty value, otherwise the locale month and year. */
  function FormatDate(localeDate: string -> string, d: string): string {
    if d == "" then "" else localeDate(d)
  }

  /** The date line of an experience entry. */
  function DateLine(e: Experience, localeDate: string -> string): string {
    FormatDate(localeDate, e.startDate) + " - " + (if e.current then "Present" else FormatDate(localeDate, e.endDate))
  }

  function ExperienceEntry(e: Experience, localeDate: string -> string): seq<string> {
    [e.title, e.company, DateLine(e, localeDate)] + (if e.description != "" then [e.description] else [])
  }

  function EducationEntry(e: Education): seq<string> {
    [e.degree,
     e.institution + " " + (if e.year != "" then "(" + e.year + ")" else "")
       + (if e.gpa != "" then " - GPA: " + e.gpa else "")]
  }

  function CertificationEntry(c: Certification): seq<string> {
    [c.name] + (if c.issuer != "" then [c.issuer + " " + (if c.year != "" then "(" + c.year + ")" else "")] else [])
  }

  function LanguageEntry(l: Language): seq<string> {
    [l.name] + (if l.level != "" then [" - " + l.level] else [])
  }

  /** A section that is written only when it has entries. */
  function SectionIf(heading: string, entries: seq<seq<string>>): (r: seq<Section>)
    ensures |r| <= 1 && (|r| == 1 <==> |entries| > 0)
    ensures forall s :: s in r ==> s.heading == heading
  {
    if |entries| > 0 then [Section(heading, entries)] else []
  }

  function ContactLines(p: PersonalInfo): seq<string> {
    (if p.email != "" then ["\U{1F4E7} " + p.email] else [])
    + (if p.phone != "" then ["\U{1F4F1} " + p.phone] else [])
    + (if p.address != "" then ["\U{1F4CD} " + p.address] else [])
    + (if p.linkedin != "" then ["\U{1F4BC} LinkedIn"] else [])
    + (if p.website != "" then ["\U{1F310} Portfolio"] else [])
  }

  /** `generateDefaultTemplate`, with `toLocaleDateString` as the parameter `localeDate`. */
  function DefaultTemplate(data: FormData, localeDate: string -> string): Document {
    var p := data.personalInfo;
    Document(
      OrElse(p.firstName, "Your") + " " + OrElse(p.lastName, "Name"),
      OrElse(if data.jobRole.Some? then data.jobRole.value.name else "", "Professional"),
      ContactLines(p),
      SectionIf("Professional Objective", if p.objective != "" then [[p.objective]] else [])
      + SectionIf("Work Experience", seq(|data.experience|, i requires 0 <= i < |data.experience| =>
          ExperienceEntry(data.experience[i], localeDate)))
      + SectionIf("Education", seq(|data.education|, i requires 0 <= i < |data.education| =>
          EducationEntry(data.education[i]))),
      SectionIf("Technical Skills", seq(|data.technical|, i requires 0 <= i < |data.technical| => [data.technical[i]]))
      + SectionIf("Soft Skills", seq(|data.soft|, i requires 0 <= i < |data.soft| => [data.soft[i]]))
      + SectionIf("Certifications", seq(|data.certifications|, i requires 0 <= i < |data.certifications| =>
          CertificationEntry(data.certifications[i])))
      + SectionIf("Languages", seq(|data.languages|, i requires 0 <= i < |data.languages| =>
          LanguageEntry(data.languages[i]))))
  }

  function Headings(sections: seq<Section>): seq<string> {
    seq(|sections|, i requires 0 <= i < |sections| => sections[i].heading)
  }

  /** The "Work Experience" section is written exactly when there is an experience entry. */
  lemma WorkExperienceIff(data: FormData, localeDate: string -> string)
    ensures var doc := DefaultTemplate(data, localeDate);
      "Work Experience" in Headings(doc.main + doc.side) <==> |data.experience| > 0
  {
    var doc := DefaultTemplate(data, localeDate);
    var all := doc.main + doc.side;
    if |data.experience| > 0 {
      var k := if data.personalInfo.objective != "" then 1 else 0;
      assert all[k].heading == "Work Experience";
      assert Headings(all)[k] == "Work Experience";
    } else {
      forall i | 0 <= i < |all| ensures all[i].heading != "Work Experience" {
        assert all[i] in all;
      }
    }
  }

  /** A current position shows "Present", and its end date is then ignored. */
  lemma CurrentJobShowsPresent(e: Experience, localeDate: string -> string, otherEnd: string)
    requires e.current
    ensures DateLine(e, localeDate) == FormatDate(localeDate, e.startDate) + " - Present"
    ensures DateLine(e.(endDate := otherEnd), localeDate) == DateLine(e, localeDate)
  {
  }

  /** Missing name parts and role fall back to "Your", "Name" and "Professional"; given ones are kept. */
  lemma HeaderFallbacks(data: FormData, localeDate: string -> string)
    ensures var doc := DefaultTemplate(data, localeDate);
      data.personalInfo.firstName == "" && data.personalInfo.lastName == "" ==> doc.name == "Your Name"
    ensures var doc := DefaultTemplate(data, localeDate);
      data.personalInfo.firstName != "" && data.personalInfo.lastName != "" ==>
        doc.name == data.personalInfo.firstName + " " + data.personalInfo.lastName
    ensures var doc := DefaultTemplate(data, localeDate);
      data.personalInfo.firstName == "" && data.personalInfo.lastName != "" ==>
        doc.name == "Your " + data.personalInfo.lastName
    ensures var doc := DefaultTemplate(data, localeDate);
      data.personalInfo.firstName != "" && data.personalInfo.lastName == "" ==>
        doc.name == data.personalInfo.firstName + " Name"
    ensures data.jobRole.None? ==> DefaultTemplate(data, localeDate).role == "Professional"
  {
    var p := data.personalInfo;
    var doc := DefaultTemplate(data, localeDate);
    assert doc.name == OrElse(p.firstName, "Your") + " " + OrElse(p.lastName, "Name");
  }
}
