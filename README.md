# SmartResume core in Dafny

This project models the decision logic of SmartResume, a résumé builder and analyzer. The system has a PHP back end and a browser front end. Each source file of the core becomes one Dafny module. The modules are written in the form the source takes: its loops and in-place updates become methods and classes, and its expression code becomes functions.

- **ResumeScorer** (`scorer.dfy`) is the analysis endpoint's scorer. It covers the five per-aspect analyzers, the content analyzer, the weighted overall score and the three feedback rule tables. Ratios are exact rationals rounded as PHP's `round` does.
- **TemplateEngine** (`template.dfy`) is the builder's template engine: the placeholder pass, `processConditionals`, `processLoops` and `getNestedValue`, over a JSON-like value tree.
- **ResumeBuilder** (`builder.dfy`) covers:
  - the inclusion filters of `collectFormData`;
  - the wizard's step and item counters, as a class;
  - the required-field check;
  - the template-to-role map;
  - the section logic of the default template.
- **ResumePdf** (`resume_pdf.dfy`) is the server-side request validation and the HTML that `getRoleTemplate` builds, plus `formatDate`.
- **Mailer** (`mailer.dfy`) is the mail builder. `PhpMailer` is a class whose adder methods update its fields. The module also covers header assembly, the multipart body of section 5.1.1 of RFC 2046, and the outcomes of `send`.
- **ResumeAnalyzerUi** (`analyzer_ui.dfy`) is the analyzer page. It covers score bands and classes, upload gating, and the analyze button. The page's state is the class `AnalyzerSession`.
- **AdminAuth** and **AdminListing** (`admin_auth.dfy`, `admin_listing.dfy`) are the admin session guards and the résumé listing's query builder and pager.
- **EnquiryForm**, **ContactForm** and **ContactHandler** (`forms.dfy`) are the three server-side form validators. **ClientValidation** (`client_validation.dfy`) is the browser's `isValidEmail` and `validateForm`.
- **SchemaImport** (`schema_import.dfy`) is the schema import script. It splits the SQL file into statements and runs them in a transaction, against a `Connection` class.
- **PhpRuntime**, **JsRuntime**, **Strings** and **Outcomes** (`runtime.dfy`, `strings.dfy`) hold the library functions the core relies on. These include `strtolower`, `str_word_count`, `trim`, `ucfirst`, `round`, `explode`, `implode`, `array_unique`, `array_filter` and ECMAScript `trim`.

External services are parameters of the model:
- the database's answers;
- `mail()`;
- the MIME boundary;
- the base64 encoder;
- `filter_var`, `htmlspecialchars` and date parsing;
- file existence.

## Model

| member | source | states |
|---|---|---|
| ResumeScorer.DefaultCriteria | php/analyze-resume.php:209-222 | the built-in criteria have five required, five preferred and five technical keywords, and their weights are non-negative and sum to 100 |
| ResumeScorer.DefaultWeightsValid | php/analyze-resume.php:214-220 | the default weights are 30/25/20/15/10 for keywords, structure, experience, education and skills, and they form a valid weighting (non-negative, sum 100) |
| ResumeScorer.LoadCriteria | php/analyze-resume.php:193-204 | the stored criteria of the target role are used when the criteria file decodes and has that role; in every other case (no file, undecodable file, unknown role) the defaults are used |
| ResumeScorer.FoundPlusMissing | php/analyze-resume.php:307-313 | every keyword is counted as found or listed as missing, never both: found + missing = number of keywords |
| ResumeScorer.MissingAreUnmatched | php/analyze-resume.php:307-313 | each missing keyword is one of the criteria's keywords and its lower-case form does not occur in the text |
| ResumeScorer.HitCountAppend | php/analyze-resume.php:307-313 | appending text to the résumé never loses a keyword hit |
| ResumeScorer.KeywordScoreAppend | php/analyze-resume.php:297-322 | appending text never lowers the number of keywords found nor the keyword score |
| ResumeScorer.CountHits | php/analyze-resume.php:377-381 | the counting loop returns exactly the number of listed words occurring in the text |
| ResumeScorer.CountKeywords | php/analyze-resume.php:307-313 | the loop counts exactly the keywords whose lower-case form occurs and collects, in order, exactly those that do not |
| ResumeScorer.KeywordStep | php/analyze-resume.php:308-312 | one more keyword either raises the found count by one or is appended to the missing list, depending on whether its lower-case form occurs |
| ResumeScorer.AnalyzeKeywords | php/analyze-resume.php:297-322 | over the merged required, preferred and technical keywords: `found` is the number occurring, `missing` is the first ten that do not, and the score is round(min(100, found / total * 100)) |
| ResumeScorer.AnalyzeStructure | php/analyze-resume.php:327-359 | the score is round(sections found / 5 * 100), raised by 20 and capped at 100 when the word count is between 200 and 800, where a section is found as soon as one of its keywords occurs |
| ResumeScorer.StructureScoreSteps | php/analyze-resume.php:350-358 | the structure score is exactly 20 per section found (plus 20, capped at 100, in the length band), so it is a multiple of 20 in [0, 100] |
| ResumeScorer.AnalyzeContent | php/analyze-resume.php:364-393 | the content score is the length points (40 in the 200-800 band, else 20 from 100 words) plus min(30, 5 per action word) plus 15 for a `\d+%` figure and 15 for a `$\d+` figure, capped at 100; it lies in [0, 100] |
| ResumeScorer.ContentScoreInRange | php/analyze-resume.php:364-393 | the content score lies in [0, 100] for every input |
| ResumeScorer.AnalyzeExperience | php/analyze-resume.php:398-419 | the score is round(min(100, indicators found / 8 * 100 + 5 per capitalised name match)) and lies in [0, 100] |
| ResumeScorer.NoUpperNoNames | php/analyze-resume.php:414-416 | text without an upper-case ASCII letter has no capitalised-name match |
| ResumeScorer.ExperienceScoreWithoutNames | php/analyze-resume.php:411-418 | without capitalised names the experience score is round(found / 8 * 100) |
| ResumeScorer.ExperienceOfLowered | php/analyze-resume.php:227-254 | because the text is lower-cased first, the capitalised-name bonus never applies: the experience score is round(indicators found / 8 * 100) |
| ResumeScorer.AnalyzeEducation | php/analyze-resume.php:424-445 | the score is round(keywords found / 9 * 100), raised by 20 and capped at 100 when a `20\d{2}` year occurs, and lies in [0, 100] |
| ResumeScorer.AnalyzeSkills | php/analyze-resume.php:450-469 | the score is round(technical skills found / total * 100), raised by 25 and capped at 100 when "skills" or "competencies" occurs, and lies in [0, 100] |
| ResumeScorer.CategoryScoresInRange | php/analyze-resume.php:315-468 | with at most as many hits as candidates, every category score lies in [0, 100] |
| ResumeScorer.CategoryScoresOfLowered | php/analyze-resume.php:227-260 | on the lower-cased résumé all five category scores lie in [0, 100] |
| ResumeScorer.OverallScoreInRange | php/analyze-resume.php:263-270 | with non-negative weights summing to 100 and category scores in [0, 100], the overall score lies in [0, 100] |
| ResumeScorer.OverallScoreMonotonic | php/analyze-resume.php:263-270 | raising any category score never lowers the overall score |
| ResumeScorer.AnalyzeResumeContent | php/analyze-resume.php:227-292 | the analysis of the lower-cased text: the overall score is the rounded weighted sum of the five category scores (the content score is computed but not used), keywords found and missing are as in the keyword analysis, the three feedback lists are those the rule tables give, and with valid weights the overall score lies in [0, 100] |
| ResumeScorer.GenerateStrengths | php/analyze-resume.php:474-506 | the lines earned by the five score thresholds and the figure rule, in rule order, or the single fallback line when none is earned |
| ResumeScorer.StrengthsNonEmpty | php/analyze-resume.php:501-503 | the strengths list is never empty, and the fallback line appears only when it is the only line |
| ResumeScorer.StrengthRules | php/analyze-resume.php:477-499 | the keyword strength appears iff the keyword score is at least 70, the skills strength iff the skills score is at least 75, the figures strength iff the text contains `%` or `$` |
| ResumeScorer.GenerateImprovements | php/analyze-resume.php:511-543 | the improvement lines whose rules fire, in rule order |
| ResumeScorer.MissingKeywordsLineRule | php/analyze-resume.php:530-532 | the missing-keywords line is among the improvements iff some keyword is missing, and it names each of the first (at most five) missing keywords |
| ResumeScorer.MissingKeywordsLineListed | php/analyze-resume.php:530-532 | the missing-keywords line is among the improvements iff the missing list is non-empty |
| ResumeScorer.MissingKeywordsLineNames | php/analyze-resume.php:531 | each of the first five missing keywords occurs in the line |
| ResumeScorer.GenerateSuggestions | php/analyze-resume.php:548-590 | the role tips, then the score-band tips, then the keyword tip, with duplicates removed |
| ResumeScorer.RoleTipsApart | php/analyze-resume.php:552-568 | a role's tips are pairwise distinct and differ from every general tip |
| ResumeScorer.ScoreBandTipsApart | php/analyze-resume.php:575-582 | the score-band tips are distinct general tips, never the keyword tip |
| ResumeScorer.SuggestionsInOrder | php/analyze-resume.php:548-590 | `array_unique` removes nothing: the suggestions are exactly role tips + score-band tips + keyword tip, in that order |
| PhpRuntime.Posted | php/process-enquiry.php:27-29 | a missing request field reads as the empty string, a present one as its value |
| PhpRuntime.StrToLower | php/analyze-resume.php:228 | `strtolower` keeps the length, maps each ASCII upper-case byte to its lower-case letter, leaves every other byte unchanged, and leaves no upper-case ASCII letter |
| PhpRuntime.StrToLowerAppend | php/analyze-resume.php:228 | lower-casing commutes with concatenation |
| PhpRuntime.UcFirst | php/generate-resume.php:377 | `ucfirst` keeps the length and every byte after the first; the first byte is no longer a lower-case ASCII letter, and a string not starting with one is returned unchanged |
| PhpRuntime.Trim | php/process-enquiry.php:27-29 | the result of `trim` is no longer than the input and neither starts nor ends with a space, tab, newline, carriage return, NUL or vertical tab |
| PhpRuntime.TrimLeftSuffix | php/process-enquiry.php:27-29 | trimming the left end keeps a suffix of the input |
| PhpRuntime.TrimEmpty | php/process-enquiry.php:27-34 | a field trims to "" exactly when it holds only the bytes `trim` strips |
| PhpRuntime.TrimKeepsOut | import-schema.php:21 | trimming only removes bytes: a byte absent from the input is absent from the result |
| PhpRuntime.RoundRatio | php/analyze-resume.php:264-270 | `round` of a ratio of integers is the nearest integer, halves away from zero, for both signs of the numerator |
| PhpRuntime.RoundRatioMonotonic | php/analyze-resume.php:264-270 | rounding is monotonic in the numerator |
| PhpRuntime.RoundRatioExact | php/analyze-resume.php:358 | rounding an exact multiple returns the multiplier |
| PhpRuntime.RoundRatioBounds | php/analyze-resume.php:318 | a ratio in [0, hi] rounds to a value in [0, hi] |
| JsRuntime.Trim | js/main.js:215 | `String.prototype.trim` returns a string no longer than its input that neither starts nor ends with ECMAScript white space |
| JsRuntime.TrimStartRemoved | js/main.js:215 | what trimming the start removes is white space |
| JsRuntime.TrimEndRemoved | js/main.js:215 | what trimming the end removes is white space |
| JsRuntime.BlankIffAllSpace | js/resume-builder.js:188 | a value trims to "" (and so fails the required-field test) exactly when it is all white space |
| JsRuntime.TrimSpacePrefix | js/main.js:215 | leading white space does not change the trimmed value |
| TemplateEngine.Lookup | js/resume-builder.js:1122 | a property found on an object is the value of one of its own fields with that key, and of the last such field (a later duplicate key overwrites an earlier one); a name that is not an own field reads as undefined (inherited properties are not modelled) |
| TemplateEngine.WalkFalsy | js/resume-builder.js:1121-1123 | once the `o && o[k]` reduction reaches a falsy value, that value is the result |
| TemplateEngine.WalkSplit | js/resume-builder.js:1121-1123 | walking a dotted path is walking its first keys, then the rest |
| TemplateEngine.WalkStops | js/resume-builder.js:1121-1123 | `getNestedValue` stops at the first missing or otherwise falsy link of the path |
| TemplateEngine.GetNestedValue | js/resume-builder.js:1121-1123 | the dotted path split on '.' and walked from the data root; `WalkStops` and `GetNestedValueSingleKey` state its result |
| TemplateEngine.GetNestedValueSingleKey | js/resume-builder.js:1121-1123 | a path without a dot looks its key up in the (truthy) data |
| TemplateEngine.VarTokenAt | js/resume-builder.js:787 | a match of `\{\{([^{}]+)\}\}` at the start of the text begins with `{{`, has a non-empty capture and ends with `}}` |
| TemplateEngine.Render | js/resume-builder.js:789 | undefined and null values are replaced by "" |
| TemplateEngine.ReplaceTokensBraceFree | js/resume-builder.js:787-790 | text without `{` passes through the placeholder replacement unchanged |
| TemplateEngine.ReplaceTokensSplit | js/resume-builder.js:787-790 | no match of the placeholder pattern reaches across a `{{`: text before it is processed on its own |
| TemplateEngine.ReplaceTokensToken | js/resume-builder.js:787-790 | wherever it stands, a `{{path}}` token is replaced by the resolution of its path and the text on each side is processed on its own |
| TemplateEngine.SubstituteBraceFree | js/resume-builder.js:787-790 | text without `{` is unchanged by the variable pass |
| TemplateEngine.SubstituteToken | js/resume-builder.js:787-790 | a `{{path}}` token is replaced by the rendering of the trimmed path's value ("" for undefined and null), the text around it processed on its own |
| TemplateEngine.UnresolvedTokensReplaced | js/resume-builder.js:787-790 | two tokens resolving to "" around brace-free text leave just the text |
| TemplateEngine.MarkerIsToken | js/resume-builder.js:787 | braces around any non-empty brace-free text form a placeholder token of the variable pass |
| TemplateEngine.FindFrom | js/resume-builder.js:806 | a found closing tag occurs at the returned index, at or after the search start |
| TemplateEngine.FindFromFirst | js/resume-builder.js:806 | the lazy `[\s\S]*?` ends at the first closing tag: no occurrence lies before the one found, and none at all when nothing is found |
| TemplateEngine.BlockAt | js/resume-builder.js:806 | a block matched at the start of the text starts with its opening marker and ends right after an occurrence of its closing tag |
| TemplateEngine.BlockAtBounds | js/resume-builder.js:806 | a block's content runs from just after the header's `}}` up to the first closing tag |
| TemplateEngine.BlockContentUnclosed | js/resume-builder.js:806 | a block's content never holds its own closing tag: blocks of the same kind do not nest |
| TemplateEngine.NoBlockHere | js/resume-builder.js:806 | no block matches where the text does not start with the block's opening brace |
| TemplateEngine.Then | js/resume-builder.js:787-798 | two replacements in sequence give the concatenated text, and the first exception thrown ends the whole replacement |
| TemplateEngine.ScanPrefix | js/resume-builder.js:806-822 | text that cannot open a block is copied and the scan resumes after it |
| TemplateEngine.ScanBlock | js/resume-builder.js:806-822 | a block at the start of the text is replaced by its rendering and the scan resumes after it |
| TemplateEngine.ConditionalBlock | js/resume-builder.js:804-815 | a conditional block is replaced by nothing when its value is falsy or an empty array, and otherwise by its content rendered by the whole engine one call deeper (a stack overflow when no call depth is left) |
| TemplateEngine.ShownRender | js/resume-builder.js:807-810 | a shown conditional block renders as its content processed by `processTemplate` one call deeper, or overflows the stack |
| TemplateEngine.ConditionalsPrefix | js/resume-builder.js:804-815 | text without `{` before a conditional is copied |
| TemplateEngine.LoopsPrefix | js/resume-builder.js:820-849 | text without `{` before a loop is copied |
| TemplateEngine.LoopOverNothing | js/resume-builder.js:823-826 | a loop over a missing, non-array or empty-array path renders as nothing |
| TemplateEngine.LoopOverList | js/resume-builder.js:823-848 | a loop over a non-empty array is replaced by the instantiations of its content, one per item |
| TemplateEngine.InstantiateItem | js/resume-builder.js:828-847 | the loop body's key-by-key updates of the item's text end in `Instantiate`, the copy whose replacements `ItemKeyFilled`, `ItemKeyUnknown` and `ItemThisFilled` state; a null item throws |
| TemplateEngine.Instantiate | js/resume-builder.js:828-847 | one item's copy: `{{this}}` first, then for objects and arrays each key's token in `Object.keys` order, then the inner conditionals; `Object.keys(null)` throws |
| TemplateEngine.ReplaceKeysToken | js/resume-builder.js:834-837 | in the `forEach` over the keys, the token `{{k}}` holds `item[k] \|\| ''` once `k` has come up and is left in place until then; the other keys' patterns leave it alone |
| TemplateEngine.ItemKeyFilled | js/resume-builder.js:834-837 | inside a loop over objects, `{{k}}` for one of the item's keys becomes `item[k]`'s string when that is truthy and "" when it is falsy, and the text around it is kept |
| TemplateEngine.ItemKeyUnknown | js/resume-builder.js:834-837 | a token for a name that is not one of the item's keys is left in the item's copy |
| TemplateEngine.ItemThisFilled | js/resume-builder.js:831 | `{{this}}` becomes the item's string form for strings, numbers, booleans and undefined; for a string it is the string itself |
| Strings.ReplaceAllAround | js/resume-builder.js:831 | a global literal replacement replaces an occurrence that follows text without the pattern's first character, and carries on just after it |
| TemplateEngine.InstantiateAllAppend | js/resume-builder.js:828-848 | the instantiations of a split item list are the two halves' instantiations in order |
| TemplateEngine.InstantiateAllInOrder | js/resume-builder.js:828-848 | without null items a loop renders each item's copy in array order with nothing between |
| TemplateEngine.NullItemThrows | js/resume-builder.js:834-835 | a null item makes the whole loop throw (`Object.keys(null)`) |
| TemplateEngine.ItemConditionalBlock | js/resume-builder.js:841-844 | a conditional inside a loop keeps its raw content exactly when `item[path]` is truthy |
| TemplateEngine.ItemConditionalsPrefix | js/resume-builder.js:841-844 | inside a loop, text without `{` before a conditional is copied |
| TemplateEngine.BlockPassesBraceFree | js/resume-builder.js:793-796 | text without `{` comes through both block passes unchanged |
| TemplateEngine.ProcessTemplate | js/resume-builder.js:785-799 | the variable pass, then the conditional pass, then the loop pass, the first exception ending the rendering; `BraceFreeTemplate`, `MarkersDeleted` and the block lemmas state what it renders |
| TemplateEngine.SubstituteVariables | js/resume-builder.js:787-790 | every `{{path}}` token replaced by the rendering of its trimmed path; `SubstituteToken` and `SubstituteBraceFree` state it |
| TemplateEngine.ProcessConditionals | js/resume-builder.js:804-815 | the leftmost-first scan over `{{#if}}` blocks; `ConditionalBlock` and `ConditionalsPrefix` state it |
| TemplateEngine.ProcessLoops | js/resume-builder.js:820-852 | the leftmost-first scan over `{{#each}}` blocks; `LoopOverNothing`, `LoopOverList` and `LoopsPrefix` state it |
| TemplateEngine.InstantiateAll | js/resume-builder.js:828-848 | `array.map(...).join('')`; `InstantiateAllAppend`, `InstantiateAllInOrder` and `NullItemThrows` state it |
| TemplateEngine.BraceFreeTemplate | js/resume-builder.js:785-799 | a template without `{` is returned unchanged |
| TemplateEngine.MarkerSpelling | js/resume-builder.js:787-806 | a block written with its markers is two placeholder tokens around its content |
| TemplateEngine.ConditionalMarkersDeleted | js/resume-builder.js:787-812 | the placeholder pass runs first and also matches `{{#if path}}` and `{{/if}}`; when nothing in the data sits under those captured paths both markers are deleted, so the content is kept whatever the condition's value |
| TemplateEngine.LoopMarkersDeleted | js/resume-builder.js:787-849 | likewise `{{#each path}}` and `{{/each}}` are deleted by the placeholder pass, so the loop content appears once rather than once per item |
| TemplateEngine.MarkersDeleted | js/resume-builder.js:785-799 | two markers resolving to "" around brace-free text leave just the text after every pass |
| ResumeBuilder.ReadAll | js/resume-builder.js:610-620 | one record per block on the page |
| ResumeBuilder.CollectEntries | js/resume-builder.js:609-669 | the records pushed by a `forEach` over the blocks are exactly those read at their page position that pass the filter, in page order |
| ResumeBuilder.SkillLinesAreLines | js/resume-builder.js:641-644 | a skill is kept iff it is a line of the box with something other than white space; no kept skill holds a newline |
| ResumeBuilder.CollectFormData | js/resume-builder.js:591-669 | role and personal details as given; experience kept with title and company, education with degree and institution, certifications and languages with a name, each in page order; skills are the non-blank lines |
| ResumeBuilder.Fields | js/resume-builder.js:609-620 | one record per block |
| ResumeBuilder.ExperienceKept | js/resume-builder.js:609-622 | with the blocks numbered by position, an experience is kept iff it has a title and a company, in page order |
| ResumeBuilder.MisnumberedSlotDropped | js/resume-builder.js:609-620 | a block whose inputs carry another index reads as empty and is never kept |
| ResumeBuilder.RemovedBlockLosesNext | js/resume-builder.js:364-376 | after removing the middle of three experience blocks, the filled-in last block is lost |
| ResumeBuilder.OwnIndexKeepsFilled | js/resume-builder.js:609-622 | read by each block's own index, an experience is kept iff its block is on the page and has a title and a company |
| ResumeBuilder.Wizard.constructor | js/resume-builder.js:2-8 | the step counter starts at 1, as do the four item counters |
| ResumeBuilder.Wizard.NextStep | js/resume-builder.js:128-139 | the step advances by exactly 1 iff the step validates; nothing else changes |
| ResumeBuilder.Wizard.PreviousStep | js/resume-builder.js:144-150 | the step goes back by 1 only above step 1, so it never drops below 1 |
| ResumeBuilder.Wizard.AddExperienceItem | js/resume-builder.js:295-353 | the new block is numbered with the counter, which then grows by 1; nothing else changes |
| ResumeBuilder.Wizard.AddEducationItem | js/resume-builder.js:380-430 | as for experience, with the education counter |
| ResumeBuilder.Wizard.AddCertificationItem | js/resume-builder.js:457-485 | as for experience, with the certification counter |
| ResumeBuilder.Wizard.AddLanguageItem | js/resume-builder.js:491-527 | as for experience, with the language counter |
| ResumeBuilder.ValidateCurrentStep | js/resume-builder.js:182-206 | the loop's verdict is `StepPasses`: every required field non-blank after trimming, and on step 1 a role selected |
| ResumeBuilder.BlankFieldBlocks | js/resume-builder.js:187-193 | a required field of only white space stops the wizard on any step |
| ResumeBuilder.RoleForTemplate | js/resume-builder.js:1094-1116 | a role is preselected iff the parameter names one of the six templates, and it is that template's role |
| ResumeBuilder.TemplateRolesDistinct | js/resume-builder.js:1100-1107 | no two templates preselect the same role |
| ResumeBuilder.OrElse | js/resume-builder.js:869-872 | `a \|\| fallback`: the fallback exactly when the value is empty |
| ResumeBuilder.DefaultTemplate | js/resume-builder.js:857-976 | the preview document: the header with its fallbacks, then each section only when it has entries; `HeaderFallbacks`, `WorkExperienceIff` and `CurrentJobShowsPresent` state it |
| ResumeBuilder.SectionIf | js/resume-builder.js:884-995 | a section is written iff it has entries, under its heading |
| ResumeBuilder.WorkExperienceIff | js/resume-builder.js:892-908 | the "Work Experience" heading appears iff there is an experience entry |
| ResumeBuilder.CurrentJobShowsPresent | js/resume-builder.js:900-902 | a current job's date line ends in "Present" and does not depend on its end date |
| ResumeBuilder.HeaderFallbacks | js/resume-builder.js:869-873 | each half of the name falls back on its own: both missing show "Your Name", a missing first name shows "Your " and the last name, a missing last name shows the first name and " Name", both given are kept; a missing role shows "Professional" |
| ResumePdf.ValidateRequest | php/generate-resume.php:91-120 | an accepted request carries the decoded payload |
| ResumePdf.ValidationReportsFirstFailure | php/generate-resume.php:91-120 | the request is accepted iff every check passes (POST, decodable JSON, personal details and role present, first name, last name and email non-empty); otherwise it is rejected with the first failing check's message; the four messages are distinct |
| ResumePdf.PrimaryColor | php/generate-resume.php:220-229 | the role's colour when its id is listed, otherwise `#1a237e` |
| ResumePdf.PrimaryColorInPalette | php/generate-resume.php:220-229 | the colour is always one of the palette's |
| ResumePdf.ShownFilterStep | php/generate-resume.php:233-238 | one more contact candidate adds its text iff its field is non-empty |
| ResumePdf.FiveCandidates | php/generate-resume.php:233-238 | the shown contact items are the five candidates' kept texts, in order |
| ResumePdf.ContactOrder | php/generate-resume.php:233-238 | the contact items are the non-empty fields in the order email, phone, address, "LinkedIn: …", "Portfolio: …" |
| ResumePdf.EscapeAll | php/generate-resume.php:260 | every contact item is escaped, one output per item |
| ResumePdf.FormatDate | php/generate-resume.php:481-490 | the intended fallback: an empty date gives ""; a date whose first of the month does not parse is returned unchanged. As written the catch misses `DateTime`'s exception (`FormatDateAsWritten`, "## Findings") |
| ResumePdf.SkillList | php/generate-resume.php:326-338 | one skill piece per skill |
| ResumePdf.AppendExperience | php/generate-resume.php:270-291 | the loop appends exactly `ExperienceSection`: the heading for a non-empty list, then each shown entry |
| ResumePdf.AppendEducation | php/generate-resume.php:293-316 | the loop appends exactly `EducationSection` |
| ResumePdf.AppendSkills | php/generate-resume.php:326-328 | the loop appends one escaped skill per skill, in order |
| ResumePdf.AppendCertifications | php/generate-resume.php:343-366 | the loop appends exactly `CertificationSection` |
| ResumePdf.AppendLanguages | php/generate-resume.php:368-382 | the loop appends exactly `LanguageSection` |
| ResumePdf.BuildContactInfo | php/generate-resume.php:232-238 | the five conditional appends give the present candidates' texts in order |
| ResumePdf.AppendSkillsSection | php/generate-resume.php:318-341 | the skills block appends exactly `SkillsSection` |
| ResumePdf.RoleTemplate | php/generate-resume.php:211-385 | the role template's HTML as a function of the request; `ContactOrder`, `ExperienceHeadingAlone`, `SkillsHeadingIff` and the other section lemmas state it; it uses the intended date fallback, and `RoleTemplateAsWrittenAgrees` relates it to the code as written |
| ResumePdf.GetRoleTemplate | php/generate-resume.php:211-385 | the HTML built section by section equals `RoleTemplate`: header, objective, experience, education, skills, certifications, languages, each only with data; with the intended date fallback (as written, see `RoleTemplateAsWrittenAgrees`) |
| ResumePdf.PresentIffCurrent | php/generate-resume.php:275-276 | a current position's date range ends in "Present" and does not depend on its end date |
| ResumePdf.ExperienceListAppend | php/generate-resume.php:273-290 | entries contribute in list order |
| ResumePdf.HiddenExperienceEmpty | php/generate-resume.php:274 | entries without a title or a company add nothing |
| ResumePdf.ExperienceHeadingAlone | php/generate-resume.php:271-291 | a non-empty list whose entries are all left out still writes the heading, alone |
| ResumePdf.EducationOptionalParts | php/generate-resume.php:297-311 | the year in parentheses appears only when given, the GPA line only when given |
| ResumePdf.SkillsInOrder | php/generate-resume.php:326-338 | each group shows its skills escaped, in input order |
| ResumePdf.SkillsHeadingIff | php/generate-resume.php:319-320 | the Skills heading is written iff one of the two groups is non-empty, and it comes first |
| ResumePdf.CertificationSubtitleIff | php/generate-resume.php:352-361 | a certification has a subtitle iff an issuer or a year is given |
| ResumePdf.LanguageLevelCapitalised | php/generate-resume.php:375-378 | a language level is appended after " - " with its first letter upper-cased |
| ResumePdf.FormatDateAsWritten | php/generate-resume.php:481-490 | as written, the date ends the request with an uncaught exception iff it is non-empty and its first of the month does not parse; otherwise it gives the fallback's text |
| ResumePdf.DateRangeAsWrittenAgrees | php/generate-resume.php:275-276 | an entry's date range throws iff its start date, or its end date when not current, does not parse; otherwise it is the fallback's range |
| ResumePdf.ExperienceListAsWrittenAgrees | php/generate-resume.php:273-290 | the experience loop as written dies iff a shown entry has a date that does not parse; otherwise it gives exactly the fallback's entries |
| ResumePdf.RoleTemplateAsWrittenAgrees | php/generate-resume.php:211-385 | `getRoleTemplate` as written dies iff a shown experience entry has a date that does not parse; otherwise its HTML is `RoleTemplate` |
| ResumePdf.UnparseableStartDateDies | php/generate-resume.php:484-489 | a shown entry whose start date does not parse ends the request as written, while the fallback shows the date as given |
| Mailer.FormatAddress | php/phpmailer/PHPMailer.php:148-153 | the formatted address is never shorter than the bare address |
| Mailer.FormatAddressRoundTrip | php/phpmailer/PHPMailer.php:148-153 | with a non-empty name holding no '<', the address is read back from between the angle brackets of "name <address>"; without a name the result is the bare address |
| Mailer.SendCheck | php/phpmailer/PHPMailer.php:77-88 | the checks pass iff there is a from-address, a recipient and a non-empty subject; a missing from-address is reported first; with a from-address, a missing recipient; with both, an empty subject gives "Subject is required" |
| Mailer.HeaderListLayout | php/phpmailer/PHPMailer.php:90-123 | From comes first; MIME-Version and X-Mailer are always present; the custom headers follow the fixed ones in insertion order; attachments add one last header, the multipart content type |
| Mailer.OptionalHeaders | php/phpmailer/PHPMailer.php:94-109 | Reply-To is present iff a reply address is set, X-Priority iff the priority is below 3; the content type follows From and Reply-To and matches `isHTML` |
| Mailer.CustomHeader | php/phpmailer/PHPMailer.php:63-69 | the bare name when no value is given, else the name, ": " and the value |
| Mailer.AssembleHeaders | php/phpmailer/PHPMailer.php:90-114 | the header list built step by step is the fixed headers followed by the custom ones |
| Mailer.CreateMultipartBody | php/phpmailer/PHPMailer.php:155-196 | the body built part by part equals `MultipartBody`: preamble, main part, one part per attachment in order, close delimiter |
| Mailer.AttachmentBody | php/phpmailer/PHPMailer.php:172-190 | the text one attachment adds after its delimiter is `AttachmentContent`: a base64 part for a string attachment or an existing file, nothing for a missing file |
| Mailer.AttachmentPartsInOrder | php/phpmailer/PHPMailer.php:169-191 | the parts of two lists of attachments are the parts of the first followed by those of the second |
| Mailer.MultipartFraming | php/phpmailer/PHPMailer.php:155-196 | the body starts with the preamble and "--boundary\r\n" and ends with "--boundary--\r\n" |
| Mailer.MissingFileLeavesDelimiter | php/phpmailer/PHPMailer.php:170-190 | a file attachment whose path does not exist leaves only its delimiter line |
| Mailer.StringAttachmentSent | php/phpmailer/PHPMailer.php:172-179 | a string attachment is always sent, with its file name and base64 content |
| Mailer.Calls | php/phpmailer/PHPMailer.php:127-130 | one `mail()` call is prepared per recipient |
| Mailer.CallsTo | php/phpmailer/PHPMailer.php:127-130 | one call per recipient, in order |
| Mailer.FirstRejected | php/phpmailer/PHPMailer.php:127-136 | the index found is the first call `mail()` refuses; none is found iff every call succeeds |
| Mailer.DeliverAll | php/phpmailer/PHPMailer.php:125-138 | the delivery loop equals `Deliver`: one `mail()` per recipient; with exceptions on it stops by throwing at the first failure |
| Mailer.FirstRejectedAt | php/phpmailer/PHPMailer.php:127-136 | a refused call preceded only by accepted ones is the first rejected |
| Mailer.SendOutcomes | php/phpmailer/PHPMailer.php:75-146 | a failed check sends nothing and returns false, or rethrows its message with exceptions on; without exceptions every recipient is tried and the result is true iff every call succeeded; with exceptions a throw follows exactly one refused call, the last one made |
| Mailer.DeliverOutcomes | php/phpmailer/PHPMailer.php:125-145 | the delivery loop's outcomes over any list of prepared calls, as in `SendOutcomes` |
| Mailer.AssignAsWritten | php/phpmailer/PHPMailer.php:198-200 | assigning any name but "subject" leaves the subject unchanged |
| Mailer.AssignIntended | php/process-enquiry.php:135-136 | "Subject" or "subject" sets the subject, "Body" or "body" the body |
| Mailer.SubjectAssignmentLost | php/process-enquiry.php:125-139 | as written, `$mail->Subject = s` leaves the subject empty, so a message with a sender and a recipient fails "Subject is required" and no mail is sent |
| Mailer.SubjectAssignmentReachesSend | php/process-enquiry.php:125-139 | with the intended assignment, a non-empty subject passes the checks |
| Mailer.PhpMailer.constructor | php/phpmailer/PHPMailer.php:20-36 | empty sender, recipients, reply address, attachments and headers; plain text; priority 3; exceptions on only when `true` is given |
| Mailer.PhpMailer.SetFrom | php/phpmailer/PHPMailer.php:43-45 | the sender is replaced; nothing else changes |
| Mailer.PhpMailer.AddAddress | php/phpmailer/PHPMailer.php:47-49 | the recipient is appended; nothing else changes |
| Mailer.PhpMailer.AddReplyTo | php/phpmailer/PHPMailer.php:51-53 | the reply address is replaced; nothing else changes |
| Mailer.PhpMailer.AddAttachment | php/phpmailer/PHPMailer.php:55-57 | a file attachment is appended without looking at the path |
| Mailer.PhpMailer.AddStringAttachment | php/phpmailer/PHPMailer.php:59-61 | an in-memory attachment is appended |
| Mailer.PhpMailer.AddCustomHeader | php/phpmailer/PHPMailer.php:63-69 | one header line is appended, `CustomHeader(name, value)` |
| Mailer.PhpMailer.IsHtml | php/phpmailer/PHPMailer.php:71-73 | the HTML flag is set; nothing else changes |
| Mailer.PhpMailer.SetPriority | php/phpmailer/PHPMailer.php:20 | the public priority is set; nothing else changes |
| Mailer.PhpMailer.SetProperty | php/phpmailer/PHPMailer.php:198-200 | an assignment through `__set` changes the state as `AssignAsWritten` says |
| Mailer.PhpMailer.Send | php/phpmailer/PHPMailer.php:75-146 | the outcome and the `mail()` calls equal `SendSpec` of the current state |
| ResumeAnalyzerUi.ScoreDescription | js/resume-analyzer.js:322-334 | the description is one of the five band texts |
| ResumeAnalyzerUi.Band | js/resume-analyzer.js:322-334 | the band index it gives contains the score (at least the band's floor, below the floor above) |
| ResumeAnalyzerUi.ScoreDescriptionBands | js/resume-analyzer.js:322-334 | every score lies in exactly one of the bands ≥90, ≥80, ≥70, ≥60, other, and gets that band's description |
| ResumeAnalyzerUi.ScoreClassOf | js/resume-analyzer.js:285-294 | the class is excellent iff score ≥ 80, good iff 60 ≤ score < 80, poor iff score < 60 |
| ResumeAnalyzerUi.ScoreClassMonotonic | js/resume-analyzer.js:285-294 | a higher score never gets a worse class |
| ResumeAnalyzerUi.FileRejection | js/resume-analyzer.js:117-131 | a file is accepted iff its type is PDF, DOC or DOCX and its size is at most 5·1024·1024 bytes; the type message appears iff the type is not allowed, so it wins over the size message |
| ResumeAnalyzerUi.ContentCheck | js/resume-analyzer.js:470-497 | `validateFileContent`: a failed read rejects with its message, a PDF resolves, and any other file rejects as empty when `content.length < 100`; `ContentCheckPassesReadable` shows that test never fires, since an `ArrayBuffer` has no `length` |
| ResumeAnalyzerUi.ContentCheckPassesReadable | js/resume-analyzer.js:470-497 | the content pre-check rejects only a failed read: `content.length` of an `ArrayBuffer` is undefined, so the `< 100` test never fires |
| ResumeAnalyzerUi.MissingItems | js/resume-analyzer.js:181-183 | one item per missing choice, "upload a resume" first and "select target role" last |
| ResumeAnalyzerUi.ButtonFor | js/resume-analyzer.js:172-186 | the button is disabled iff the file or the role is missing; when enabled it reads "Analyze Resume" |
| ResumeAnalyzerUi.UpdateAnalyzeButton | js/resume-analyzer.js:172-186 | the button built with the two pushes equals `ButtonFor` |
| ResumeAnalyzerUi.BothMissingLabel | js/resume-analyzer.js:181-185 | with nothing chosen the label asks to "upload a resume and select target role" |
| ResumeAnalyzerUi.ListEntries | js/resume-analyzer.js:339-356 | a rendered list always has at least one entry |
| ResumeAnalyzerUi.PopulateList | js/resume-analyzer.js:339-356 | the list built by the loop equals `ListEntries` |
| ResumeAnalyzerUi.ListEntriesInOrder | js/resume-analyzer.js:339-356 | one entry per item, in order; the placeholder alone iff the list is absent or empty |
| ResumeAnalyzerUi.AnalyzerSession.constructor | js/resume-analyzer.js:4-5 | the page starts with no uploaded file and no selected role, results hidden; the initial button (disabled, asking for both choices) is assumed, since the page markup is not part of this model |
| ResumeAnalyzerUi.AnalyzerSession.HandleFileSelect | js/resume-analyzer.js:117-135 | the alert is `FileRejection(file)`; an accepted file becomes the uploaded file and the button is updated; a rejected one leaves the file and the button unchanged; the role and results are untouched |
| ResumeAnalyzerUi.AnalyzerSession.HandleFileSelectChecked | js/resume-analyzer.js:500-510 | a failed read shows the generic file-error alert and changes nothing; a readable file goes through the original handler |
| ResumeAnalyzerUi.AnalyzerSession.SelectRole | js/resume-analyzer.js:59-62 | the selected role is the first role whose id matches, or none; the button is updated |
| ResumeAnalyzerUi.AnalyzerSession.RemoveFile | js/resume-analyzer.js:154-167 | the file is cleared, the role kept, the results hidden and the button disabled |
| ResumeAnalyzerUi.AnalyzerSession.ResetAnalyzer | js/resume-analyzer.js:423-433 | file and role are cleared and the button is disabled; its label is the one `removeFile` set while the role was still selected |
| ResumeAnalyzerUi.StaleLabelAfterReset | js/resume-analyzer.js:423-433 | the label left by a reset with a role selected differs from the label for the state after it |
| ResumeAnalyzerUi.AnalyzerSession.CanAnalyze | js/resume-analyzer.js:196-199 | the click handler analyses iff the button is enabled |
| ResumeAnalyzerUi.FindRole | js/resume-analyzer.js:60 | a found role is in the list with the chosen id; none is found iff no role has that id |
| ResumeAnalyzerUi.FindRoleFirst | js/resume-analyzer.js:60 | `find` returns the first role with the chosen id |
| AdminAuth.IsAdmin | admin/php/verify-token.php:19-21 | a logged-in user whose role is strictly "admin" or "super_admin"; `RoleHierarchy` states it |
| AdminAuth.IsSuperAdmin | admin/php/verify-token.php:23-25 | a logged-in user whose role is strictly "super_admin"; `RoleHierarchy` states it |
| AdminAuth.RoleHierarchy | admin/php/verify-token.php:19-25 | every super administrator is an administrator; the administrators are exactly the users whose role is "admin" or "super_admin"; a "moderator", a user without a role and a session without a user are neither |
| AdminAuth.VerifyCsrfToken | admin/php/verify-token.php:4-10 | the request goes on iff the session holds a token and the argument strictly equals it; otherwise it ends with status 403 and the mismatch message |
| AdminAuth.TokenCheckCases | admin/php/verify-token.php:4-10 | without a stored token every argument is refused; the session's own token is accepted; any other string is refused |
| AdminAuth.RequireLogin | admin/php/verify-token.php:12-17 | execution continues iff an admin user is in the session; otherwise it redirects to login.php |
| AdminListing.BuildStatements | admin/resumes.php:8-58 | the count query and its parameters, and the page query and its parameters, built clause by clause, equal the filter clauses and parameters of the specification (`CountQuery`, `FilterParams`, `PageQuery`, `PageParams`) |
| AdminListing.HolesAppend | admin/resumes.php:25-54 | the placeholders of a concatenated query are those of its parts |
| AdminListing.ClauseHoles | admin/resumes.php:21-52 | the search clause holds three placeholders, each date clause one, the LIMIT clause two, the base queries none |
| AdminListing.SearchClauseHoles | admin/resumes.php:26-27 | the search clause holds exactly three placeholders |
| AdminListing.FilterHoles | admin/resumes.php:25-43 | the filter clauses bring exactly as many placeholders as parameters |
| AdminListing.PlaceholdersMatchParams | admin/resumes.php:46-58 | at both `execute` calls the number of `?` placeholders equals the number of parameters |
| AdminListing.ParamLayout | admin/resumes.php:25-54 | a search adds three identical `%search%` parameters first; `date_from` adds its value with " 00:00:00"; `date_to` adds its value with " 23:59:59" last among the filters; offset and page size come last, in that order |
| AdminListing.OffsetOfPage | admin/resumes.php:8-10 | the offset is non-negative exactly from page 1 on, and consecutive pages start 15 rows apart |
| AdminListing.TotalPages | admin/resumes.php:49 | the page count is the ceiling of total/15: its pages cover every row, the last page is not empty, and no rows means no pages |
| AdminListing.TotalPagesCovers | admin/resumes.php:49-54 | every page from 1 to the page count starts before the last row |
| AdminListing.BuildPager | admin/resumes.php:276-293 | the pager built by the page loop equals `PagerFor`: hidden for at most one page, else Previous, one link per page, Next |
| AdminListing.PageLinks | admin/resumes.php:284-288 | there is one link per page |
| AdminListing.PagerStates | admin/resumes.php:276-293 | the pager is shown iff there is more than one page; Previous is disabled iff page ≤ 1, Next iff page ≥ the page count; link k goes to page k+1 and is active iff that is the current page |
| AdminListing.PageLinksNumbered | admin/resumes.php:284-288 | link k goes to page k+1 and is active iff it is the current page |
| ContactHandler.Handle | php/contact-handler.php:10-31 | a rejection carries one of the three messages; a stored inquiry holds the four posted fields, absent ones as "" |
| ContactHandler.GuardOrder | php/contact-handler.php:10-31 | a non-POST request is refused before any field check; the combined message appears iff name, email or message is empty ("" or "0"); the format message appears iff those are present and the email fails the validator; otherwise the inquiry is stored |
| ContactHandler.SubjectOptional | php/contact-handler.php:16-25 | the subject never decides whether, or with which message, a request is refused |
| EnquiryForm.Validate | php/process-enquiry.php:31-51 | the error list built check by check equals `Errors`: each failing check's message, in the order name, email, message, length |
| EnquiryForm.MessagesDistinct | php/process-enquiry.php:34-51 | the five error messages are pairwise distinct |
| EnquiryForm.ErrorsMeaning | php/process-enquiry.php:34-51 | each message is reported iff its condition holds; an empty email is never also reported as malformed; a message of exactly 1000 bytes is accepted; the list is empty iff every check passes |
| EnquiryForm.BlankNameMissing | php/process-enquiry.php:27-36 | a posted name of only white space is reported as missing, because it is trimmed first |
| EnquiryForm.ProcessEnquiry | php/process-enquiry.php:22-58 | non-POST is refused first; otherwise the trimmed fields are rejected iff the error list is non-empty, with the messages joined by ", "; for an accepted enquiry the handler builds the subject "Quick Enquiry from " and the name; as written, `send` then fails (see `Mailer.SubjectAssignmentLost`) |
| EnquiryForm.AcceptedSubjectNamesSender | php/process-enquiry.php:34-58 | an accepted enquiry's subject is longer than its fixed prefix |
| ContactForm.Validate | php/process-contact.php:177-209 | the error list built check by check equals `Errors`: first name, last name, email, subject, message, privacy, length |
| ContactForm.MessagesDistinct | php/process-contact.php:180-209 | the eight error messages are pairwise distinct |
| ContactForm.ErrorsMeaning | php/process-contact.php:180-209 | each message is reported iff its condition holds; an empty and a malformed email are never both reported; an unticked privacy box is always an error; the list is empty iff every check passes |
| ContactForm.SenderChecksReported | php/process-contact.php:180-192 | the name and email messages are reported iff their conditions hold |
| ContactForm.ContentChecksReported | php/process-contact.php:194-209 | the subject, message, privacy and length messages are reported iff their conditions hold (a message over 5000 bytes is too long) |
| ContactForm.MessagesDiffer | php/process-contact.php:180-209 | any two of the eight messages differ |
| ContactForm.ProcessContact | php/process-contact.php:163-217 | non-POST is refused first; the trimmed fields (newsletter "Yes"/"No", privacy from presence) are rejected iff the error list is non-empty, with the messages joined by ", "; for an accepted message the handler builds the subject "Contact Form - " and the subject field, from "first last"; as written, `send` then fails (see `Mailer.SubjectAssignmentLost`) |
| ContactForm.PrivacyConsentRequired | php/process-contact.php:175-204 | a request without the privacy checkbox is always refused with the privacy message |
| ContactForm.LegacyCheck | php/process-contact.php:12-26 | the older validator sets only the fill-in or the valid-email message; `LegacyFirstFailure` states when each one is set |
| ContactForm.LegacyAllFilled | php/process-contact.php:22 | all five trimmed and escaped fields are non-empty |
| ContactForm.LegacyFirstFailure | php/process-contact.php:22-26 | only the first failure is reported: the fill-in message is set iff one of the five fields is empty after trimming and escaping; the valid-email message iff all five are filled and the escaped email fails; no message iff all five are filled and the email validates |
| ContactForm.LegacyMessagesDiffer | php/process-contact.php:23-25 | the two older messages differ |
| ClientValidation.AddressCharsOfSlice | js/main.js:203 | characters of `[^\s@]` at every index of a range make the slice a run of them |
| ClientValidation.SliceOfAddressChars | js/main.js:203 | a run of `[^\s@]` characters holds one at each index |
| ClientValidation.CharNotInSlice | js/main.js:203 | a character absent at every index of a range is absent from the slice |
| ClientValidation.ValidEmailSplits | js/main.js:202-205 | a string `isValidEmail` accepts splits as a non-empty local part, '@', a non-empty run, '.', a non-empty run, none with white space or '@' |
| ClientValidation.SplitsIsValidEmail | js/main.js:202-205 | every string that splits that way is accepted |
| ClientValidation.ValidEmailMatchesPattern | js/main.js:202-205 | the scan accepts exactly the strings matched by `/^[^\s@]+@[^\s@]+\.[^\s@]+$/` |
| ClientValidation.OneAtSign | js/main.js:203 | a string whose only '@' is at one index counts exactly one '@' |
| ClientValidation.ValidEmailShape | js/main.js:203 | an accepted address has no white space, exactly one '@', a non-empty part before it, and a '.' strictly inside the domain |
| ClientValidation.Caption | js/main.js:216 | the first label's text when it is non-empty, else the field's name |
| ClientValidation.FieldErrors | js/main.js:215-227 | a field yields at most one message |
| ClientValidation.CheckField | js/main.js:215-227 | the messages the callback pushes are `FieldErrors`, and the field is marked invalid iff it pushed one |
| ClientValidation.ValidateForm | js/main.js:210-230 | the error list is `FormErrors`, the fields' messages in document order, and exactly the fields that produced a message are marked invalid |
| ClientValidation.MarkStep | js/main.js:215-227 | marking one more field keeps the marks in step with the fields' errors |
| ClientValidation.FormErrorsPerField | js/main.js:210-230 | at most one error per field; the errors of two groups of fields come group by group; there are none iff every field passes |
| ClientValidation.FieldVerdicts | js/main.js:215-227 | a whitespace-only field gives "<label> is required"; a non-blank e-mail field the pattern rejects, including one padded with spaces, gives the e-mail message |
| SchemaImport.StatementsWellFormed | import-schema.php:21 | every statement is the trimmed text of one piece of the file between semicolons, holds no ';' and is neither "" nor "0" |
| SchemaImport.StatementWellFormed | import-schema.php:21 | one statement of the split is a trimmed piece, without ';', neither "" nor "0" |
| SchemaImport.TrimmedPiece | import-schema.php:21 | trimming a piece without ';' gives a statement without ';' |
| SchemaImport.SplitAround | import-schema.php:21 | `explode` around a separator splits each side on its own |
| SchemaImport.StatementsInOrder | import-schema.php:21 | the statements before a ';' come first, in file order, then those after it |
| SchemaImport.SingleStatement | import-schema.php:21 | text without ';' is one statement (its trimmed form), or none when that is "" or "0" |
| SchemaImport.StatementsTruthy | import-schema.php:21 | no statement of the split is "" or "0" |
| SchemaImport.SplitStatementsAllReached | import-schema.php:21-26 | the loop's own emptiness test never skips a statement of the split |
| SchemaImport.Connection.constructor | import-schema.php:6 | a new connection has no open transaction and nothing pending or committed |
| SchemaImport.Connection.BeginTransaction | import-schema.php:23 | a transaction is open with nothing pending; committed statements are unchanged |
| SchemaImport.Connection.Exec | import-schema.php:28 | the answer is the database's; a successful statement is pending inside a transaction and committed outside one; a failed one changes nothing |
| SchemaImport.Connection.Commit | import-schema.php:39 | the pending statements are appended to the committed ones and the transaction is closed |
| SchemaImport.Connection.RollBack | import-schema.php:60 | inside a transaction the pending statements are discarded; without one the call fails (PDO throws) and nothing changes |
| SchemaImport.Run | import-schema.php:25-37 | the statement loop: each non-empty statement executed in order, an "already exists" error logged as skipped, any other error ending the loop; `RunStaysFailed`, `RunSucceedsIff`, `RunApplied` and `RunFirstFailure` state it |
| SchemaImport.RunStaysFailed | import-schema.php:31-33 | once a fatal error has been met, later statements change nothing |
| SchemaImport.RunSucceedsIff | import-schema.php:25-37 | the loop gets through iff no non-empty statement gets an error other than "already exists" |
| SchemaImport.EveryStatementReached | import-schema.php:25-37 | when every statement is non-empty, the loop gets through iff none of them fails fatally |
| SchemaImport.RunApplied | import-schema.php:25-37 | a loop that gets through has applied exactly the reached statements that succeed, in order |
| SchemaImport.RunFirstFailure | import-schema.php:25-37 | a failed loop reports the message of the first statement that fails fatally, every earlier one having succeeded or been skipped |
| SchemaImport.RunStatements | import-schema.php:25-37 | the loop's fatal error and echoed lines are those of the specification `Run`, the statements it applied are pending, and the transaction stays open |
| SchemaImport.ApplyStatements | import-schema.php:23-39 | statements that all get through are committed together and the transaction closed; after a fatal error the transaction is left open with the applied statements pending |
| SchemaImport.TryImport | import-schema.php:9-56 | the `try` block throws the file error, the first fatal statement error or the sample-data error, in that order, and leaves the transaction open exactly when a statement failed; what it leaves committed is what `Committed` says |
| SchemaImport.ScriptAsWritten | import-schema.php:5-63 | how the script as written ends: a connection error reported, a file error or a failing sample-data query ending in the rollback's exception, else the loop's error or success; `RollbackWithoutTransaction` states the escaping cases |
| SchemaImport.Script | import-schema.php:5-63 | how the script with a guarded rollback ends: every error reported with its own message, success otherwise; `EveryErrorReported` and `ScriptsAgreeWhenReported` state it |
| SchemaImport.ImportSchemaAsWritten | import-schema.php:5-63 | the script as written ends as `ScriptAsWritten` says |
| SchemaImport.ImportSchema | import-schema.php:5-63 | the script with a guarded rollback ends as `Script` says, leaves no transaction open and commits exactly the statements of a loop that got through |
| SchemaImport.RollbackWithoutTransaction | import-schema.php:11-61 | as written, a missing or unreadable file, and a sample-data failure after the commit, end in the rollback's own exception and the script's message is never echoed |
| SchemaImport.EveryErrorReported | import-schema.php:5-63 | with the guarded rollback no exception escapes; the script reports success iff the connection and the file are fine, no statement fails fatally and the sample-data test passes; file errors are reported with their own messages |
| SchemaImport.ScriptsAgreeWhenReported | import-schema.php:5-63 | where the script as written echoes an outcome it agrees with the guarded one, and it lets the exception escape exactly for file errors and for a sample-data failure after a clean run |

## Left out

- Text extraction from PDF, DOC and DOCX files, and reading the criteria file, are left out. The scorer takes the résumé text and the decoded criteria as inputs. These are foreign tools and file I/O.
- The file-system lines after the `try` block of `php/analyze-resume.php` (71-73) are not modelled; they are I/O.
- ResumeScorer.AnalyzeKeywords: requires a non-empty keyword list. The source divides by the keyword count without a guard, and an empty list is a PHP division-by-zero error.
- ResumeScorer.AnalyzeSkills: requires a non-empty technical keyword list, for the same reason.
- ResumeScorer.AnalyzeResumeContent: requires both keyword lists to be non-empty, for the same reason.
- PHP's floating-point arithmetic is not modelled. Every quotient the scorer rounds is a ratio of integers, so each is kept as an exact rational. `round` is modelled as half away from zero on those rationals.
- `str_word_count` and `strtolower` are modelled for the C locale. Only ASCII letters count as letters.
- TemplateEngine: `String.prototype.replace` replacement patterns (`$&`, `$1`, …) are not modelled. The template engine inserts replacement text literally.
- TemplateEngine: the keys that `new RegExp` builds inside loops are treated as literal text. Regular-expression metacharacters in object keys are not interpreted.
- TemplateEngine: `Object.keys` returns integer-like keys in insertion order, not ascending numeric order.
- TemplateEngine.Get: property access reads only an object's own fields. JavaScript also finds properties inherited through the prototype chain: `{{constructor}}`, `{{toString}}`, `{{__proto__}}` or `{{skills.map}}` resolve to functions or objects, which render as function source or "[object Object]"; the model renders them as "". `length` and indexes on strings count characters, where JavaScript counts UTF-16 code units.
- TemplateEngine.Lookup: for the same reason, a name that is not an own field reads as undefined even when `Object.prototype` supplies it.
- TemplateEngine.ItemKeyFilled: stated for a key without braces, text around the token without braces, and a value without '{'. The later keys and the inner conditional pass also match text inside an inserted value, so a value that holds a token is rewritten further, as in the source; the lemma does not describe that case.
- TemplateEngine.ProcessTemplate: the recursion between `processTemplate` and `processConditionals` carries a `fuel` argument, the call depth the JavaScript stack allows. Running out of fuel is the engine's `RangeError`; the actual stack limit is not known.
- Numbers in the template data are integers. JavaScript's floating-point number formatting is not modelled.
- ResumeBuilder: the builder works on abstract entry records. Reading values from the DOM, `FormData` and the preview rendering are left out.
- ResumeBuilder: `roleMapping` lookups of names inherited from `Object.prototype` (such as "constructor") are not modelled.
- ResumePdf: TCPDF rendering, `emailResume`, `trackResumeActivity` and the database connection are not part of this model. They are a foreign library and database writes.
- ResumePdf: `htmlspecialchars` and the date parser are parameters.
- ResumePdf.ValidateRequest: the model stops at the exception message. The reply the catch block writes is not modelled: the HTTP headers, the echoed JSON body, and the PHP "undefined variable $action" warning. That warning is printed into the body, with display_errors on, for the POST, JSON and missing-data rejections, because the catch reads `$action` (php/generate-resume.php:149) before line 115 assigns it.
- ResumePdf.FormatDate: `DateTime` and `date` are an abstract parser and formatter.
- ResumePdf.RoleTemplate: renders with the intended date fallback. As written, a shown experience entry whose date does not parse ends the request with an uncaught exception, and no PDF or JSON reply is sent; `RoleTemplateAsWritten` models that and `RoleTemplateAsWrittenAgrees` states when it happens (see "## Findings").
- ResumePdf.GetRoleTemplate: equals `RoleTemplate`, so it too renders inputs on which the code as written dies, for the same reason.
- Mailer: `mail()` is an oracle, the boundary from `uniqid()` is a parameter, and `base64_encode` with `chunk_split` is an abstract encoder. `basename` and `file_exists` are parameters too.
- Mailer: `php/phpmailer/SMTP.php` (stubs) and `php/phpmailer/Exception.php` (a wrapper) are not part of this model.
- Mailer.PhpMailer.SetProperty: requires the name not to be one of the class's private fields, nor one of its public properties (`Host`, `SMTPAuth`, `Username`, `Password`, `SMTPSecure`, `Port`, `Priority`). The model does not cover `__set` assignments to the other private fields; a public property is assigned directly without `__set`, and `SetPriority` models the one the handlers use.
- Mailer.AssignAsWritten: requires the name not to be one of the class's private fields or public properties, for the same reasons.
- Mailer.AssignIntended: has the same requires as `AssignAsWritten`, so that the two can be compared name by name.
- ResumeAnalyzerUi: DOM updates, animations, `fetch`, alerts and timers are left out. File reading is a parameter.
- ResumeAnalyzerUi: `formatFileSize` is left out because it uses floating-point `log` and `pow`.
- AdminListing: `$_GET['page']` is taken as the integer `(int)` yields. PHP's string-to-integer conversion is not modelled.
- AdminListing: the database is not modelled. The listing is specified by the queries and parameters it hands to `execute`.
- The other admin pages are left out. They are HTML views and session plumbing.
- The database bootstrap scripts and `includes/db_connection.php` are left out. They are database plumbing.
- Lines 72-142 of `php/process-contact.php` are literal output text after `?>`, and are not modelled.
- ContactForm, EnquiryForm and ContactHandler: `filter_var(FILTER_VALIDATE_EMAIL)` is an abstract predicate. Sending the mail and writing to the database are not modelled.
- SchemaImport: MySQL commits implicitly when a DDL statement runs inside a transaction; the model does not cover this. The connection keeps transaction statements pending until `commit`, as PDO's interface describes.
- SchemaImport: the sample-data queries after the commit are abstracted to `testError`, the error of the first one that fails.
- SchemaImport: the progress messages are modelled as log lines; their emoji prefixes and the trailing "..." are left out.

## Findings

| source | as written | input that shows it | evidently intended | confidence | as-written member | corrected member |
|---|---|---|---|---|---|---|
| js/resume-builder.js:609-620 | removing an experience block (lines 364-376) does not renumber the blocks after it, and `collectFormData` looks each block's inputs up by the block's position on the page | fill in three experience blocks (names with indexes 0, 1, 2) and remove the middle one: the last block is at position 1 but its inputs carry index 2, so it reads as empty and is dropped | every remaining block with a title and a company is collected | not executed | ResumeBuilder.RemovedBlockLosesNext | ResumeBuilder.OwnIndexKeepsFilled |
| php/phpmailer/PHPMailer.php:198-200 | property names are case-sensitive: `$mail->Subject = …` (php/process-enquiry.php line 135) goes through `__set`, which creates a new dynamic `Subject` property and leaves the private `subject` that `send` checks empty, so `send` fails with "Subject is required" | the enquiry handler (php/process-enquiry.php line 135) or the contact handler (php/process-contact.php line 294), each with a sender, a recipient and `$mail->Subject = $emailSubject` | the assignment sets the subject (and `Body` the body) that `send` uses | not executed | Mailer.SubjectAssignmentLost | Mailer.SubjectAssignmentReachesSend |
| php/generate-resume.php:487 | `use PHPMailer\PHPMailer\Exception;` (line 23) makes `catch (Exception $e)` in `formatDate` catch only PHPMailer's exception class. `new DateTime` (line 485) throws PHP's global `Exception`, which passes this catch and the one around the request (line 144), so the script dies with an uncaught exception and sends no PDF and no JSON reply | an experience entry with a title and a company whose start date is posted as "Summer 2023" (the builder's month input sends YYYY-MM, so this takes a direct POST) | a date that does not parse is shown as given, as the catch's `return $dateString` intends | not executed | ResumePdf.UnparseableStartDateDies | ResumePdf.FormatDate |
| import-schema.php:58-61 | the `catch` block calls `rollBack()` whenever the connection exists, and that call throws when no transaction is open | a missing SQL file, or a failing sample-data query after the commit: the rollback's exception escapes and "Error: …" is never echoed | roll back only inside a transaction (`inTransaction()`), so every error is reported | not executed | SchemaImport.RollbackWithoutTransaction | SchemaImport.EveryErrorReported |
