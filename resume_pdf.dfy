/**
 * The server side of résumé generation: the checks on the posted request,
 * and `getRoleTemplate`, which writes the HTML the PDF library renders.
 * The HTML is modelled as the sequence of its content pieces, each tagged
 * with the element class it is written into; the style sheet and the
 * surrounding markup are fixed text and are not modelled.
 */
module ResumePdf {
  import opened Outcomes
  import opened Strings
  import opened PhpRuntime
  import opened ResumeBuilder

  // -------------------------------------------------------------- the request

  /** The `jobRole` object as decoded; `id` and `name` may be absent. */
  datatype RoleFields = RoleFields(id: Option<string>, name: Option<string>)

  /** The decoded body; a key that is absent or null is `None`. */
  datatype Payload = Payload(
    personalInfo: Option<PersonalInfo>, jobRole: Option<RoleFields>,
    experience: seq<Experience>, education: seq<Education>,
    technical: seq<string>, soft: seq<string>,
    certifications: seq<Certification>, languages: seq<Language>)

  /** The request: its method, and the body unless `json_decode` gave null or another falsy value. */
  datatype ResumeRequest = ResumeRequest(httpMethod: string, body: Option<Payload>)

  datatype Checked = Accepted(payload: Payload) | Rejected(message: string)

  const ErrMethod := "Only POST method allowed"
  const ErrJson := "Invalid JSON data"
  const ErrMissing := "Missing required resume data"
  const ErrRequired := "First name, last name, and email are required"

  /** The checks in the order they run, each with the message it throws when it fails. */
  function Checks(req: ResumeRequest): seq<(bool, string)> {
    var p := req.body;
    [(req.httpMethod == "POST", ErrMethod),
     (p.Some?, ErrJson),
     (p.Some? && p.value.personalInfo.Some? && p.value.jobRole.Some?, ErrMissing),
     (p.Some? && p.value.personalInfo.Some?
        && !IsEmptyString(p.value.personalInfo.value.firstName)
        && !IsEmptyString(p.value.personalInfo.value.lastName)
        && !IsEmptyString(p.value.personalInfo.value.email), ErrRequired)]
  }

  /** The request validation at the top of the script. */
  function ValidateRequest(req: ResumeRequest): (r: Checked)
    ensures r.Accepted? ==> req.body == Some(r.payload)
  {
    if req.httpMethod != "POST" then Rejected(ErrMethod)
    else if req.body.None? then Rejected(ErrJson)
    else
      var p := req.body.value;
      if p.personalInfo.None? || p.jobRole.None? then Rejected(ErrMissing)
      else if IsEmptyString(p.personalInfo.value.firstName) || IsEmptyString(p.personalInfo.value.lastName)
           || IsEmptyString(p.personalInfo.value.email) then Rejected(ErrRequired)
      else Accepted(p)
  }

  /** Check `k` is the first that fails. */
  predicate FirstFailure(cs: seq<(bool, string)>, k: int) {
    0 <= k < |cs| && !cs[k].0 && forall j :: 0 <= j < k ==> cs[j].0
  }

  /**
   * The request is accepted exactly when every check passes, and otherwise
   * rejected with the message of the first check that fails; the four
   * messages are distinct, so the message names the failure.
   */
  lemma ValidationReportsFirstFailure(req: ResumeRequest)
    ensures ValidateRequest(req).Accepted? <==> forall k :: 0 <= k < |Checks(req)| ==> Checks(req)[k].0
    ensures forall k :: FirstFailure(Checks(req), k) ==> ValidateRequest(req) == Rejected(Checks(req)[k].1)
    ensures forall j, k :: 0 <= j < k < |Checks(req)| ==> Checks(req)[j].1 != Checks(req)[k].1
  {
    var cs := Checks(req);
    assert |ErrMethod| == 24 && |ErrJson| == 17 && |ErrMissing| == 28 && |ErrRequired| == 45;
    if ValidateRequest(req).Accepted? {
      forall k | 0 <= k < |cs| ensures cs[k].0 { }
    } else {
      assert !cs[0].0 || !cs[1].0 || !cs[2].0 || !cs[3].0;
    }
    forall k | FirstFailure(cs, k)
      ensures ValidateRequest(req) == Rejected(cs[k].1)
    {
      if k >= 1 { assert cs[0].0; }
      if k >= 2 { assert cs[1].0; }
      if k >= 3 { assert cs[2].0; }
    }
  }

  // ------------------------------------------------------------- the template

  /** The PHP helpers the template calls, taken as parameters. */
  datatype Env = Env(
    escape: string -> string,           // htmlspecialchars
    lineBreaks: string -> string,       // nl2br
    parseMonth: string -> Option<string>) // new DateTime(s)->format('M Y'), None when it throws

  /** One piece of content of the generated HTML, tagged with where it is written. */
  datatype Piece =
    | Header(color: string, name: string, title: string, contact: string)
    | SectionTitle(text: string)
    | Paragraph(text: string)
    | ItemTitle(text: string)
    | ItemSubtitle(text: string)
    | ItemDate(text: string)
    | GroupLabel(text: string)
    | Skill(text: string)

  const DefaultColor := "#1a237e"

  const RoleColors: map<string, string> := map[
    "full-stack-developer" := "#1a237e",
    "data-analyst" := "#2e7d32",
    "mobile-developer" := "#e65100",
    "backend-developer" := "#4a148c",
    "frontend-developer" := "#c62828",
    "default" := DefaultColor]

  /** `$roleColors[$jobRole['id'] ?? 'default'] ?? $roleColors['default']`. */
  function PrimaryColor(id: Option<string>): (c: string)
    ensures id.Some? && id.value in RoleColors ==> c == RoleColors[id.value]
    ensures (id.None? || id.value !in RoleColors) ==> c == DefaultColor
  {
    var key := if id.Some? then id.value else "default";
    if key in RoleColors then RoleColors[key] else RoleColors["default"]
  }

  /** Whatever the role, the colour is one of the palette's. */
  lemma PrimaryColorInPalette(id: Option<string>)
    ensures PrimaryColor(id) in RoleColors.Values
  {
    assert "default" in RoleColors;
    assert RoleColors["default"] in RoleColors.Values;
    if id.Some? && id.value in RoleColors {
      assert RoleColors[id.value] in RoleColors.Values;
    }
  }

  /** The separator `implode` puts between contact items, as the source file spells it. */
  const ContactSeparator := " â€¢ "

  /** The contact items, each with the raw value whose emptiness decides it. */
  function ContactCandidates(p: PersonalInfo): seq<(string, string)> {
    [(p.email, p.email), (p.phone, p.phone), (p.address, p.address),
     (p.linkedin, "LinkedIn: " + p.linkedin), (p.website, "Portfolio: " + p.website)]
  }

  /** `$contactInfo`, built by the five conditional appends. */
  function ContactInfo(p: PersonalInfo): seq<string> {
    (if !IsEmptyString(p.email) then [p.email] else [])
    + (if !IsEmptyString(p.phone) then [p.phone] else [])
    + (if !IsEmptyString(p.address) then [p.address] else [])
    + (if !IsEmptyString(p.linkedin) then ["LinkedIn: " + p.linkedin] else [])
    + (if !IsEmptyString(p.website) then ["Portfolio: " + p.website] else [])
  }

  predicate Present(c: (string, string)) { !IsEmptyString(c.0) }

  function Shown(cs: seq<(string, string)>): seq<string> {
    seq(|cs|, i requires 0 <= i < |cs| => cs[i].1)
  }

  function Kept(c: (string, string)): seq<string> {
    if Present(c) then [c.1] else []
  }

  /** One more candidate adds its text exactly when it is present. */
  lemma ShownFilterStep(cs: seq<(string, string)>, k: nat)
    requires k < |cs|
    ensures Shown(Filter(cs[..k + 1], Present)) == Shown(Filter(cs[..k], Present)) + Kept(cs[k])
  {
    assert cs[..k + 1][..k] == cs[..k];
    var f := Filter(cs[..k], Present);
    if Present(cs[k]) {
      assert Shown(f + [cs[k]]) == Shown(f) + [cs[k].1];
    }
  }

  lemma FiveCandidates(cs: seq<(string, string)>)
    requires |cs| == 5
    ensures Shown(Filter(cs, Present)) == Kept(cs[0]) + Kept(cs[1]) + Kept(cs[2]) + Kept(cs[3]) + Kept(cs[4])
  {
    var k0, k1, k2, k3, k4 := Kept(cs[0]), Kept(cs[1]), Kept(cs[2]), Kept(cs[3]), Kept(cs[4]);
    assert Shown(Filter(cs[..1], Present)) == k0 by {
      assert Shown(Filter(cs[..0], Present)) == [];
      ShownFilterStep(cs, 0);
      EmptyPrefix(k0);
    }
    assert Shown(Filter(cs[..2], Present)) == k0 + k1 by {
      ShownFilterStep(cs, 1);
    }
    assert Shown(Filter(cs[..3], Present)) == k0 + k1 + k2 by {
      ShownFilterStep(cs, 2);
    }
    assert Shown(Filter(cs[..4], Present)) == k0 + k1 + k2 + k3 by {
      ShownFilterStep(cs, 3);
    }
    assert Shown(Filter(cs[..5], Present)) == k0 + k1 + k2 + k3 + k4 by {
      ShownFilterStep(cs, 4);
    }
    assert cs[..5] == cs;
  }

  /** The contact items are the non-empty fields, in the order email, phone, address, LinkedIn, portfolio. */
  lemma ContactOrder(p: PersonalInfo)
    ensures ContactInfo(p) == Shown(Filter(ContactCandidates(p), Present))
  {
    var cs := ContactCandidates(p);
    FiveCandidates(cs);
  }

  function EscapeAll(escape: string -> string, xs: seq<string>): (r: seq<string>)
    ensures |r| == |xs|
  {
    seq(|xs|, i requires 0 <= i < |xs| => escape(xs[i]))
  }

  /** `formatDate`: "" for an empty value, "Mon YYYY" of the month's first day, or the input when it does not parse. */
  function FormatDate(env: Env, d: string): (r: string)
    ensures IsEmptyString(d) ==> r == ""
    ensures !IsEmptyString(d) && env.parseMonth(d + "-01").None? ==> r == d
  {
    if IsEmptyString(d) then ""
    else match env.parseMonth(d + "-01")
      case Some(formatted) => formatted
      case None => d
  }

  function DateRange(e: Experience, env: Env): string {
    FormatDate(env, e.startDate) + " - " + (if e.current then "Present" else FormatDate(env, e.endDate))
  }

  predicate ShowExperience(e: Experience) { !IsEmptyString(e.title) && !IsEmptyString(e.company) }

  /** What one experience entry adds. */
  function ExperiencePieces(e: Experience, env: Env): seq<Piece> {
    if ShowExperience(e) then
      [ItemTitle(env.escape(e.title)), ItemSubtitle(env.escape(e.company)), ItemDate(env.escape(DateRange(e, env)))]
      + (if !IsEmptyString(e.description) then [Paragraph(env.lineBreaks(env.escape(e.description)))] else [])
    else []
  }

  function ExperienceList(items: seq<Experience>, env: Env): seq<Piece>
    decreases |items|
  {
    if |items| == 0 then []
    else ExperienceList(items[..|items| - 1], env) + ExperiencePieces(items[|items| - 1], env)
  }

  predicate ShowEducation(e: Education) { !IsEmptyString(e.degree) && !IsEmptyString(e.institution) }

  /** What one education entry adds: the year only when given, the GPA line only when given. */
  function EducationPieces(e: Education, env: Env): seq<Piece> {
    if ShowEducation(e) then
      [ItemTitle(env.escape(e.degree)),
       ItemSubtitle(env.escape(e.institution) + (if !IsEmptyString(e.year) then " (" + env.escape(e.year) + ")" else ""))]
      + (if !IsEmptyString(e.gpa) then [ItemDate("GPA: " + env.escape(e.gpa))] else [])
    else []
  }

  function EducationList(items: seq<Education>, env: Env): seq<Piece>
    decreases |items|
  {
    if |items| == 0 then []
    else EducationList(items[..|items| - 1], env) + EducationPieces(items[|items| - 1], env)
  }

  function SkillList(skills: seq<string>, env: Env): (r: seq<Piece>)
    ensures |r| == |skills|
    decreases |skills|
  {
    if |skills| == 0 then []
    else SkillList(skills[..|skills| - 1], env) + [Skill(env.escape(skills[|skills| - 1]))]
  }

  /** What one certification adds: the subtitle only when an issuer or a year is given. */
  function CertificationPieces(c: Certification, env: Env): seq<Piece> {
    if IsEmptyString(c.name) then []
    else
      [ItemTitle(env.escape(c.name))]
      + (if !IsEmptyString(c.issuer) || !IsEmptyString(c.year) then
           [ItemSubtitle((if !IsEmptyString(c.issuer) then env.escape(c.issuer) else "")
                         + (if !IsEmptyString(c.year) then " (" + env.escape(c.year) + ")" else ""))]
         else [])
  }

  function CertificationList(items: seq<Certification>, env: Env): seq<Piece>
    decreases |items|
  {
    if |items| == 0 then []
    else CertificationList(items[..|items| - 1], env) + CertificationPieces(items[|items| - 1], env)
  }

  /** What one language adds: its name, then " - " and the level with a capital first letter. */
  function LanguagePieces(l: Language, env: Env): seq<Piece> {
    if IsEmptyString(l.name) then []
    else [ItemTitle(env.escape(l.name) + (if !IsEmptyString(l.level) then " - " + UcFirst(env.escape(l.level)) else ""))]
  }

  function LanguageList(items: seq<Language>, env: Env): seq<Piece>
    decreases |items|
  {
    if |items| == 0 then []
    else LanguageList(items[..|items| - 1], env) + LanguagePieces(items[|items| - 1], env)
  }

  function HeaderPiece(role: RoleFields, p: PersonalInfo, contacts: seq<string>, env: Env): Piece {
    Header(PrimaryColor(role.id),
      env.escape(p.firstName + " " + p.lastName),
      env.escape(if role.name.Some? then role.name.value else "Professional"),
      Join(EscapeAll(env.escape, contacts), ContactSeparator))
  }

  function ObjectiveSection(p: PersonalInfo, env: Env): seq<Piece> {
    if !IsEmptyString(p.objective) then
      [SectionTitle("Professional Objective"), Paragraph(env.lineBreaks(env.escape(p.objective)))]
    else []
  }

  function ExperienceSection(items: seq<Experience>, env: Env): seq<Piece> {
    if |items| > 0 then [SectionTitle("Work Experience")] + ExperienceList(items, env) else []
  }

  function EducationSection(items: seq<Education>, env: Env): seq<Piece> {
    if |items| > 0 then [SectionTitle("Education")] + EducationList(items, env) else []
  }

  function SkillsSection(technical: seq<string>, soft: seq<string>, env: Env): seq<Piece> {
    if |technical| > 0 || |soft| > 0 then
      [SectionTitle("Skills")]
      + (if |technical| > 0 then [GroupLabel("Technical Skills")] + SkillList(technical, env) else [])
      + (if |soft| > 0 then [GroupLabel("Soft Skills")] + SkillList(soft, env) else [])
    else []
  }

  function CertificationSection(items: seq<Certification>, env: Env): seq<Piece> {
    if |items| > 0 then [SectionTitle("Certifications")] + CertificationList(items, env) else []
  }

  function LanguageSection(items: seq<Language>, env: Env): seq<Piece> {
    if |items| > 0 then [SectionTitle("Languages")] + LanguageList(items, env) else []
  }

  /** `getRoleTemplate`: the header, then each section that has data, in a fixed order. */
  function RoleTemplate(role: RoleFields, p: PersonalInfo, d: Payload, env: Env): seq<Piece> {
    [HeaderPiece(role, p, ContactInfo(p), env)]
    + ObjectiveSection(p, env)
    + ExperienceSection(d.experience, env)
    + EducationSection(d.education, env)
    + SkillsSection(d.technical, d.soft, env)
    + CertificationSection(d.certifications, env)
    + LanguageSection(d.languages, env)
  }

  /** The experience section as written: the heading, then one loop over the entries. */
  method AppendExperience(html: seq<Piece>, items: seq<Experience>, env: Env) returns (out: seq<Piece>)
    ensures out == html + ExperienceSection(items, env)
  {
    out := html;
    if |items| > 0 {
      out := out + [SectionTitle("Work Experience")];
      ghost var start := out;
      for i := 0 to |items|
        invariant out == start + ExperienceList(items[..i], env)
      {
        assert items[..i + 1][..i] == items[..i];
        var pieces := ExperiencePieces(items[i], env);
        AppendStep(start, out, ExperienceList(items[..i], env), pieces, ExperienceList(items[..i + 1], env));
        out := out + pieces;
      }
      assert items[..|items|] == items;
      AppendRegroup(html, [SectionTitle("Work Experience")], ExperienceList(items, env));
    }
  }

  /** The education section as written. */
  method AppendEducation(html: seq<Piece>, items: seq<Education>, env: Env) returns (out: seq<Piece>)
    ensures out == html + EducationSection(items, env)
  {
    out := html;
    if |items| > 0 {
      out := out + [SectionTitle("Education")];
      ghost var start := out;
      for i := 0 to |items|
        invariant out == start + EducationList(items[..i], env)
      {
        assert items[..i + 1][..i] == items[..i];
        var pieces := EducationPieces(items[i], env);
        AppendStep(start, out, EducationList(items[..i], env), pieces, EducationList(items[..i + 1], env));
        out := out + pieces;
      }
      assert items[..|items|] == items;
      AppendRegroup(html, [SectionTitle("Education")], EducationList(items, env));
    }
  }

  /** One skill group as written: a loop over the skills. */
  method AppendSkills(html: seq<Piece>, skills: seq<string>, env: Env) returns (out: seq<Piece>)
    ensures out == html + SkillList(skills, env)
  {
    out := html;
    for i := 0 to |skills|
      invariant out == html + SkillList(skills[..i], env)
    {
      assert skills[..i + 1][..i] == skills[..i];
      out := out + [Skill(env.escape(skills[i]))];
    }
    assert skills[..|skills|] == skills;
  }

  /** The certification section as written. */
  method AppendCertifications(html: seq<Piece>, items: seq<Certification>, env: Env) returns (out: seq<Piece>)
    ensures out == html + CertificationSection(items, env)
  {
    out := html;
    if |items| > 0 {
      out := out + [SectionTitle("Certifications")];
      ghost var start := out;
      for i := 0 to |items|
        invariant out == start + CertificationList(items[..i], env)
      {
        assert items[..i + 1][..i] == items[..i];
        var pieces := CertificationPieces(items[i], env);
        AppendStep(start, out, CertificationList(items[..i], env), pieces, CertificationList(items[..i + 1], env));
        out := out + pieces;
      }
      assert items[..|items|] == items;
      AppendRegroup(html, [SectionTitle("Certifications")], CertificationList(items, env));
    }
  }

  /** The language section as written. */
  method AppendLanguages(html: seq<Piece>, items: seq<Language>, env: Env) returns (out: seq<Piece>)
    ensures out == html + LanguageSection(items, env)
  {
    out := html;
    if |items| > 0 {
      out := out + [SectionTitle("Languages")];
      ghost var start := out;
      for i := 0 to |items|
        invariant out == start + LanguageList(items[..i], env)
      {
        assert items[..i + 1][..i] == items[..i];
        var pieces := LanguagePieces(items[i], env);
        AppendStep(start, out, LanguageList(items[..i], env), pieces, LanguageList(items[..i + 1], env));
        out := out + pieces;
      }
      assert items[..|items|] == items;
      AppendRegroup(html, [SectionTitle("Languages")], LanguageList(items, env));
    }
  }

  /** `$contactInfo` as written: five conditional appends. */
  method BuildContactInfo(p: PersonalInfo) returns (contactInfo: seq<string>)
    ensures contactInfo == Shown(Filter(ContactCandidates(p), Present))
  {
    contactInfo := [];
    if !IsEmptyString(p.email) { contactInfo := contactInfo + [p.email]; }
    assert contactInfo == if !IsEmptyString(p.email) then [p.email] else [];
    ghost var first := contactInfo;
    if !IsEmptyString(p.phone) { contactInfo := contactInfo + [p.phone]; }
    if !IsEmptyString(p.address) { contactInfo := contactInfo + [p.address]; }
    assert contactInfo == first + (if !IsEmptyString(p.phone) then [p.phone] else [])
      + (if !IsEmptyString(p.address) then [p.address] else []);
    ghost var third := contactInfo;
    if !IsEmptyString(p.linkedin) { contactInfo := contactInfo + ["LinkedIn: " + p.linkedin]; }
    if !IsEmptyString(p.website) { contactInfo := contactInfo + ["Portfolio: " + p.website]; }
    assert contactInfo == third + (if !IsEmptyString(p.linkedin) then ["LinkedIn: " + p.linkedin] else [])
      + (if !IsEmptyString(p.website) then ["Portfolio: " + p.website] else []);
    ContactOrder(p);
  }

  /** The skills section as written: the heading, then a loop per non-empty group. */
  method AppendSkillsSection(html: seq<Piece>, technical: seq<string>, soft: seq<string>, env: Env) returns (out: seq<Piece>)
    ensures out == html + SkillsSection(technical, soft, env)
  {
    out := html;
    if |technical| > 0 || |soft| > 0 {
      out := out + [SectionTitle("Skills")];
      ghost var afterHeading := out;
      if |technical| > 0 {
        out := out + [GroupLabel("Technical Skills")];
        out := AppendSkills(out, technical, env);
      }
      ghost var afterTechnical := out;
      if |soft| > 0 {
        out := out + [GroupLabel("Soft Skills")];
        out := AppendSkills(out, soft, env);
      }
    }
  }

  /** `getRoleTemplate` as written: the HTML grows section by section. */
  method GetRoleTemplate(role: RoleFields, p: PersonalInfo, d: Payload, env: Env) returns (html: seq<Piece>)
    ensures html == RoleTemplate(role, p, d, env)
  {
    var contactInfo := BuildContactInfo(p);
    ContactOrder(p);
    var header := [HeaderPiece(role, p, contactInfo, env)];
    html := header + ObjectiveSection(p, env);
    html := AppendExperience(html, d.experience, env);
    html := AppendEducation(html, d.education, env);
    html := AppendSkillsSection(html, d.technical, d.soft, env);
    html := AppendCertifications(html, d.certifications, env);
    html := AppendLanguages(html, d.languages, env);
  }

  // ---------------------------------------------------------- its properties

  /** A current position's date range ends in "Present", and its end date plays no part. */
  lemma PresentIffCurrent(e: Experience, env: Env, otherEnd: string)
    requires e.current
    ensures DateRange(e, env) == FormatDate(env, e.startDate) + " - Present"
    ensures DateRange(e.(endDate := otherEnd), env) == DateRange(e, env)
  {
  }

  /** Entries contribute in list order: the list of a concatenation is the concatenation of the lists. */
  lemma {:induction false} ExperienceListAppend(xs: seq<Experience>, ys: seq<Experience>, env: Env)
    ensures ExperienceList(xs + ys, env) == ExperienceList(xs, env) + ExperienceList(ys, env)
    decreases |ys|
  {
    if |ys| == 0 {
      assert xs + ys == xs;
    } else {
      var init := ys[..|ys| - 1];
      assert (xs + ys)[..|xs + ys| - 1] == xs + init;
      assert (xs + ys)[|xs + ys| - 1] == ys[|ys| - 1];
      ExperienceListAppend(xs, init, env);
    }
  }

  /** Entries without a title or a company add nothing. */
  lemma {:induction false} HiddenExperienceEmpty(items: seq<Experience>, env: Env)
    requires forall i :: 0 <= i < |items| ==> !ShowExperience(items[i])
    ensures ExperienceList(items, env) == []
    decreases |items|
  {
    if |items| > 0 {
      HiddenExperienceEmpty(items[..|items| - 1], env);
    }
  }

  /** The heading is written for any non-empty list, even when every entry is left out. */
  lemma ExperienceHeadingAlone(items: seq<Experience>, env: Env)
    requires |items| > 0
    requires forall i :: 0 <= i < |items| ==> !ShowExperience(items[i])
    ensures ExperienceSection(items, env) == [SectionTitle("Work Experience")]
  {
    HiddenExperienceEmpty(items, env);
  }

  /** The year is shown in parentheses only when given, and the GPA line only when given. */
  lemma EducationOptionalParts(e: Education, env: Env)
    requires ShowEducation(e)
    ensures IsEmptyString(e.year) ==> EducationPieces(e, env)[1] == ItemSubtitle(env.escape(e.institution))
    ensures |EducationPieces(e, env)| == if IsEmptyString(e.gpa) then 2 else 3
  {
    if IsEmptyString(e.year) {
      assert env.escape(e.institution) + "" == env.escape(e.institution);
    }
  }

  /** The skills each group shows are the given ones, escaped, in input order. */
  lemma {:induction false} SkillsInOrder(skills: seq<string>, env: Env)
    ensures forall i :: 0 <= i < |skills| ==> SkillList(skills, env)[i] == Skill(env.escape(skills[i]))
    decreases |skills|
  {
    if |skills| > 0 {
      SkillsInOrder(skills[..|skills| - 1], env);
    }
  }

  /** The Skills heading is written exactly when one of the two groups has skills. */
  lemma SkillsHeadingIff(technical: seq<string>, soft: seq<string>, env: Env)
    ensures |SkillsSection(technical, soft, env)| > 0 <==> |technical| > 0 || |soft| > 0
    ensures |SkillsSection(technical, soft, env)| > 0 ==> SkillsSection(technical, soft, env)[0] == SectionTitle("Skills")
  {
  }

  /** A certification has a subtitle exactly when an issuer or a year is given. */
  lemma CertificationSubtitleIff(c: Certification, env: Env)
    requires !IsEmptyString(c.name)
    ensures |CertificationPieces(c, env)| == 2 <==> !IsEmptyString(c.issuer) || !IsEmptyString(c.year)
  {
  }

  /** A language level is appended with its first letter made upper-case. */
  lemma LanguageLevelCapitalised(l: Language, env: Env)
    requires !IsEmptyString(l.name) && !IsEmptyString(l.level)
    ensures var t := LanguagePieces(l, env)[0].text;
      t == env.escape(l.name) + " - " + UcFirst(env.escape(l.level))
  {
  }

  // ------------------------------------------- the date fallback as written

  // The file imports `PHPMailer\PHPMailer\Exception` under the name
  // `Exception`, so `catch (Exception $e)` in `formatDate` and around the
  // whole request catches only that class.  `new DateTime` throws the global
  // `Exception`, which neither catch stops: an unparseable date ends the
  // script with an uncaught exception.  `None` below is that outcome; the
  // functions above are the intended fallback that returns the input.

  /** `formatDate` as written: `None` when `DateTime` throws past the catch. */
  function FormatDateAsWritten(env: Env, d: string): (r: Option<string>)
    ensures r.None? <==> !IsEmptyString(d) && env.parseMonth(d + "-01").None?
    ensures r.Some? ==> r.value == FormatDate(env, d)
  {
    if IsEmptyString(d) then Some("")
    else env.parseMonth(d + "-01")
  }

  /** Both dates an entry's range formats can be parsed (the end date only when not current). */
  predicate DatesParse(e: Experience, env: Env) {
    FormatDateAsWritten(env, e.startDate).Some? && (e.current || FormatDateAsWritten(env, e.endDate).Some?)
  }

  /** Lines 275-276 as written: the end date is formatted first, then the start date. */
  function DateRangeAsWritten(e: Experience, env: Env): Option<string> {
    var endDate := if e.current then Some("Present") else FormatDateAsWritten(env, e.endDate);
    if endDate.None? then None
    else match FormatDateAsWritten(env, e.startDate)
      case None => None
      case Some(start) => Some(start + " - " + endDate.value)
  }

  function ExperiencePiecesAsWritten(e: Experience, env: Env): Option<seq<Piece>> {
    if !ShowExperience(e) then Some([])
    else match DateRangeAsWritten(e, env)
      case None => None
      case Some(range) =>
        Some([ItemTitle(env.escape(e.title)), ItemSubtitle(env.escape(e.company)), ItemDate(env.escape(range))]
             + (if !IsEmptyString(e.description) then [Paragraph(env.lineBreaks(env.escape(e.description)))] else []))
  }

  /** The experience loop as written: the first entry whose date throws ends it. */
  function ExperienceListAsWritten(items: seq<Experience>, env: Env): Option<seq<Piece>>
    decreases |items|
  {
    if |items| == 0 then Some([])
    else match ExperienceListAsWritten(items[..|items| - 1], env)
      case None => None
      case Some(init) =>
        match ExperiencePiecesAsWritten(items[|items| - 1], env)
        case None => None
        case Some(last) => Some(init + last)
  }

  /** `getRoleTemplate` as written: `None` when the request dies on a date. */
  function RoleTemplateAsWritten(role: RoleFields, p: PersonalInfo, d: Payload, env: Env): Option<seq<Piece>> {
    var experience := if |d.experience| > 0 then ExperienceListAsWritten(d.experience, env) else Some([]);
    match experience
    case None => None
    case Some(entries) =>
      Some([HeaderPiece(role, p, ContactInfo(p), env)]
           + ObjectiveSection(p, env)
           + (if |d.experience| > 0 then [SectionTitle("Work Experience")] + entries else [])
           + EducationSection(d.education, env)
           + SkillsSection(d.technical, d.soft, env)
           + CertificationSection(d.certifications, env)
           + LanguageSection(d.languages, env))
  }

  /** A shown entry with a date that does not parse. */
  predicate HasBadDate(items: seq<Experience>, env: Env) {
    exists i :: 0 <= i < |items| && ShowExperience(items[i]) && !DatesParse(items[i], env)
  }

  /** An entry's range throws iff one of its dates does not parse; otherwise it is the fallback's range. */
  lemma DateRangeAsWrittenAgrees(e: Experience, env: Env)
    ensures DateRangeAsWritten(e, env).None? <==> !DatesParse(e, env)
    ensures DateRangeAsWritten(e, env).Some? ==> DateRangeAsWritten(e, env).value == DateRange(e, env)
  {
  }

  /** The loop as written dies iff a shown entry has a bad date; otherwise it agrees with the fallback. */
  lemma {:induction false} ExperienceListAsWrittenAgrees(items: seq<Experience>, env: Env)
    ensures ExperienceListAsWritten(items, env).None? <==> HasBadDate(items, env)
    ensures ExperienceListAsWritten(items, env).Some? ==>
      ExperienceListAsWritten(items, env).value == ExperienceList(items, env)
    decreases |items|
  {
    if |items| > 0 {
      var init := items[..|items| - 1];
      var last := items[|items| - 1];
      ExperienceListAsWrittenAgrees(init, env);
      DateRangeAsWrittenAgrees(last, env);
      HasBadDateLast(items, env);
    }
  }

  /** A bad date is in the entries before the last one, or in the last one. */
  lemma HasBadDateLast(items: seq<Experience>, env: Env)
    requires |items| > 0
    ensures HasBadDate(items, env) <==>
      HasBadDate(items[..|items| - 1], env) || (ShowExperience(items[|items| - 1]) && !DatesParse(items[|items| - 1], env))
  {
    var init := items[..|items| - 1];
    if HasBadDate(init, env) {
      var i :| 0 <= i < |init| && ShowExperience(init[i]) && !DatesParse(init[i], env);
      assert items[i] == init[i];
    }
    if HasBadDate(items, env) {
      var i :| 0 <= i < |items| && ShowExperience(items[i]) && !DatesParse(items[i], env);
      if i < |init| {
        assert init[i] == items[i];
      }
    }
  }

  /**
   * The request as written dies iff a shown experience entry has a date that
   * does not parse; when it survives, its HTML is the fallback's.
   */
  lemma RoleTemplateAsWrittenAgrees(role: RoleFields, p: PersonalInfo, d: Payload, env: Env)
    ensures RoleTemplateAsWritten(role, p, d, env).None? <==> HasBadDate(d.experience, env)
    ensures RoleTemplateAsWritten(role, p, d, env).Some? ==>
      RoleTemplateAsWritten(role, p, d, env).value == RoleTemplate(role, p, d, env)
  {
    ExperienceListAsWrittenAgrees(d.experience, env);
  }

  /**
   * A shown entry whose start date does not parse (a month posted as "Summer
   * 2023", say): the source dies, while the fallback shows the date as given.
   */
  lemma UnparseableStartDateDies(role: RoleFields, p: PersonalInfo, d: Payload, env: Env)
    requires |d.experience| > 0 && ShowExperience(d.experience[0])
    requires !IsEmptyString(d.experience[0].startDate) && env.parseMonth(d.experience[0].startDate + "-01").None?
    ensures RoleTemplateAsWritten(role, p, d, env).None?
    ensures FormatDate(env, d.experience[0].startDate) == d.experience[0].startDate
  {
    assert !DatesParse(d.experience[0], env);
    RoleTemplateAsWrittenAgrees(role, p, d, env);
  }
}
