/**
 * The browser side of the résumé analyzer: the score bands it displays, the
 * upload gate, the analyze button, and the two pieces of page state the
 * handlers update (the uploaded file and the selected target role).
 */
module ResumeAnalyzerUi {
  import opened Outcomes
  import opened Strings
  import ResumeBuilder

  // ------------------------------------------------------------ score bands

  const Outstanding := "Outstanding! Your resume is well-optimized and highly competitive."
  const GreatJob := "Great job! Your resume is strong with minor areas for improvement."
  const GoodStart := "Good start! Your resume has solid content but could use some optimization."
  const GettingThere := "Getting there! Several improvements will significantly boost your resume."
  const NeedsWork := "Needs work. Significant improvements required to make your resume competitive."

  /** The five descriptions, from the highest band down. */
  const Descriptions := [Outstanding, GreatJob, GoodStart, GettingThere, NeedsWork]

  /** The lower bound of band `k`; the last band has none. */
  const BandFloors := [90, 80, 70, 60]

  /** `score` lies in band `k`: at least the band's floor and below the floor of the band above. */
  predicate InBand(score: int, k: int) {
    0 <= k < 5
    && (k < 4 ==> score >= BandFloors[k])
    && (k > 0 ==> score < BandFloors[k - 1])
  }

  /** `getScoreDescription`. */
  function ScoreDescription(score: int): (r: string)
    ensures r in Descriptions
  {
    if score >= 90 then Outstanding
    else if score >= 80 then GreatJob
    else if score >= 70 then GoodStart
    else if score >= 60 then GettingThere
    else NeedsWork
  }

  /** The band a score falls in, counted from the top. */
  function Band(score: int): (k: int)
    ensures InBand(score, k)
  {
    if score >= 90 then 0 else if score >= 80 then 1 else if score >= 70 then 2 else if score >= 60 then 3 else 4
  }

  /** Every score lies in exactly one band, and gets that band's description. */
  lemma ScoreDescriptionBands(score: int)
    ensures forall k :: InBand(score, k) <==> k == Band(score)
    ensures ScoreDescription(score) == Descriptions[Band(score)]
  {
  }

  /** The class and label `updateScoreDisplay` puts on the score circle. */
  datatype ScoreClass = Excellent | Good | Poor

  function ScoreClassOf(score: int): (c: ScoreClass)
    ensures c == Excellent <==> score >= 80
    ensures c == Good <==> 60 <= score < 80
    ensures c == Poor <==> score < 60
  {
    if score >= 80 then Excellent else if score >= 60 then Good else Poor
  }

  function ScoreLabel(c: ScoreClass): string {
    match c
    case Excellent => "Excellent Resume"
    case Good => "Good Resume"
    case Poor => "Needs Improvement"
  }

  /** A higher score never gets a worse class. */
  lemma ScoreClassMonotonic(a: int, b: int)
    requires a <= b
    ensures ScoreClassOf(a) == Excellent ==> ScoreClassOf(b) == Excellent
    ensures ScoreClassOf(a) == Good ==> ScoreClassOf(b) != Poor
  {
  }

  // ------------------------------------------------------------ upload gate

  /** The properties of a `File` the handlers look at. */
  datatype UploadFile = UploadFile(name: string, mimeType: string, size: nat)

  const AllowedTypes := ["application/pdf", "application/msword",
    "application/vnd.openxmlformats-officedocument.wordprocessingml.document"]

  const MaxSize := 5 * 1024 * 1024

  const BadTypeMessage := "Please upload a PDF, DOC, or DOCX file."
  const TooLargeMessage := "File size must be less than 5MB."

  /** The alert `handleFileSelect` raises for `file`, or `None` when it accepts it. */
  function FileRejection(file: UploadFile): (r: Option<string>)
    ensures r.None? <==> file.mimeType in AllowedTypes && file.size <= MaxSize
    ensures r == Some(BadTypeMessage) <==> file.mimeType !in AllowedTypes
  {
    if file.mimeType !in AllowedTypes then Some(BadTypeMessage)
    else if file.size > MaxSize then Some(TooLargeMessage)
    else None
  }

  /** What `FileReader` delivered: a failed read, or the file's bytes as an `ArrayBuffer`. */
  datatype ReadOutcome = ReadFailed | Loaded(byteLength: nat)

  /** A JavaScript value as far as the pre-check's `< 100` needs one. */
  datatype JsNumberish = Undefined | Number(value: int)

  /** `content.length` on an `ArrayBuffer`: the property does not exist. */
  function LengthProperty(content: ReadOutcome): JsNumberish {
    Undefined
  }

  /** `<` against a number: `undefined` converts to NaN, and every comparison with NaN is false. */
  predicate LessThan(v: JsNumberish, n: int) {
    match v
    case Undefined => false
    case Number(x) => x < n
  }

  const ReadFailedMessage := "Failed to read file."
  const EmptyFileMessage := "File appears to be empty or corrupted."

  /** `validateFileContent`: the error it rejects with, or `None` when it resolves. */
  function ContentCheck(file: UploadFile, read: ReadOutcome): Option<string> {
    match read
    case ReadFailed => Some(ReadFailedMessage)
    case Loaded(_) =>
      if file.mimeType == "application/pdf" then None
      else if LessThan(LengthProperty(read), 100) then Some(EmptyFileMessage)
      else None
  }

  /** The pre-check rejects only a failed read: a readable file always passes, however small. */
  lemma ContentCheckPassesReadable(file: UploadFile, read: ReadOutcome)
    ensures ContentCheck(file, read).None? <==> read.Loaded?
  {
  }

  /** The alert `handleFileError` shows; the errors raised here are plain `Error`s, so the generic one. */
  const FileErrorMessage := "An error occurred while processing your file."

  // --------------------------------------------------------- analyze button

  const ButtonIcon := "<i class=\"fas fa-search me-2\"></i>"
  const AnalyzeLabel := ButtonIcon + "Analyze Resume"

  /** What is still missing, in the order the label lists it. */
  function MissingItems(hasFile: bool, hasRole: bool): (r: seq<string>)
    ensures |r| == (if hasFile then 0 else 1) + (if hasRole then 0 else 1)
    ensures !hasFile ==> r[0] == "upload a resume"
    ensures !hasRole ==> r[|r| - 1] == "select target role"
  {
    (if hasFile then [] else ["upload a resume"]) + (if hasRole then [] else ["select target role"])
  }

  /** The button's `disabled` flag and its label for a given page state. */
  datatype Button = Button(disabled: bool, caption: string)

  function ButtonFor(hasFile: bool, hasRole: bool): (b: Button)
    ensures b.disabled <==> !(hasFile && hasRole)
    ensures !b.disabled ==> b.caption == AnalyzeLabel
  {
    if hasFile && hasRole then Button(false, AnalyzeLabel)
    else Button(true, ButtonIcon + "Please " + Join(MissingItems(hasFile, hasRole), " and "))
  }

  /** `updateAnalyzeButton` as written: `missingItems` is built by up to two pushes. */
  method UpdateAnalyzeButton(hasFile: bool, hasRole: bool) returns (b: Button)
    ensures b == ButtonFor(hasFile, hasRole)
  {
    if hasFile && hasRole {
      b := Button(false, AnalyzeLabel);
    } else {
      var missingItems: seq<string> := [];
      if !hasFile { missingItems := missingItems + ["upload a resume"]; }
      if !hasRole { missingItems := missingItems + ["select target role"]; }
      b := Button(true, ButtonIcon + "Please " + Join(missingItems, " and "));
    }
  }

  /** With nothing chosen, the label asks for the upload first and the role second. */
  lemma BothMissingLabel()
    ensures ButtonFor(false, false).caption == ButtonIcon + "Please " + ("upload a resume" + " and " + "select target role")
  {
    var items := MissingItems(false, false);
    assert items == ["upload a resume", "select target role"];
    assert items[1..] == ["select target role"];
    assert Join(items[1..], " and ") == "select target role";
  }

  // -------------------------------------------------------------- page state

  /** An entry `populateList` renders: an item's text, or the italic placeholder. */
  datatype ListEntry = Item(text: string) | Placeholder

  /** The entries for `items`, which may be absent. */
  function ListEntries(items: Option<seq<string>>): (r: seq<ListEntry>)
    ensures |r| >= 1
  {
    if items.Some? && |items.value| > 0 then
      seq(|items.value|, i requires 0 <= i < |items.value| => Item(items.value[i]))
    else [Placeholder]
  }

  /** `populateList` as written: a loop over the items, or the placeholder. */
  method PopulateList(items: Option<seq<string>>) returns (list: seq<ListEntry>)
    ensures list == ListEntries(items)
  {
    list := [];
    if items.Some? && |items.value| > 0 {
      for i := 0 to |items.value|
        invariant list == seq(i, j requires 0 <= j < i => Item(items.value[j]))
      {
        list := list + [Item(items.value[i])];
      }
    } else {
      list := list + [Placeholder];
    }
  }

  /** One entry per item, in order, and the placeholder only for an absent or empty list. */
  lemma ListEntriesInOrder(items: Option<seq<string>>)
    ensures items.Some? && |items.value| > 0 ==>
      |ListEntries(items)| == |items.value| && forall i :: 0 <= i < |items.value| ==> ListEntries(items)[i] == Item(items.value[i])
    ensures (items.None? || |items.value| == 0) <==> ListEntries(items) == [Placeholder]
  {
    if items.Some? && |items.value| > 0 {
      assert ListEntries(items)[0] == Item(items.value[0]);
    }
  }

  /** The page's state: `uploadedFile`, `selectedTargetRole`, the button, and whether results are shown. */
  class AnalyzerSession {
    var uploadedFile: Option<UploadFile>
    var selectedTargetRole: Option<ResumeBuilder.JobRole>
    var button: Button
    var resultsShown: bool

    /**
     * The button is enabled exactly when a file and a role are both chosen.
     * Its label can lag behind: `resetAnalyzer` clears the role after the
     * button was last updated.
     */
    predicate Valid()
      reads this
    {
      button.disabled <==> !(uploadedFile.Some? && selectedTargetRole.Some?)
    }

    constructor ()
      ensures Valid()
      ensures uploadedFile.None? && selectedTargetRole.None? && !resultsShown
      ensures button == ButtonFor(false, false)
    {
      uploadedFile := None;
      selectedTargetRole := None;
      button := ButtonFor(false, false);
      resultsShown := false;
    }

    /** `handleFileSelect` as written: rejects by type, then by size, else stores the file. */
    method HandleFileSelect(file: UploadFile) returns (alert: Option<string>)
      requires Valid()
      modifies this
      ensures Valid()
      ensures alert == FileRejection(file)
      ensures alert.None? ==> uploadedFile == Some(file) && button == ButtonFor(true, selectedTargetRole.Some?)
      ensures alert.Some? ==> uploadedFile == old(uploadedFile) && button == old(button)
      ensures selectedTargetRole == old(selectedTargetRole) && resultsShown == old(resultsShown)
    {
      if file.mimeType !in AllowedTypes {
        return Some(BadTypeMessage);
      }
      if file.size > MaxSize {
        return Some(TooLargeMessage);
      }
      uploadedFile := Some(file);
      button := UpdateAnalyzeButton(true, selectedTargetRole.Some?);
      alert := None;
    }

    /** The replacement `handleFileSelect`: the content pre-check runs first, then the original handler. */
    method HandleFileSelectChecked(file: UploadFile, read: ReadOutcome) returns (alert: Option<string>)
      requires Valid()
      modifies this
      ensures Valid()
      ensures read.ReadFailed? ==> alert == Some(FileErrorMessage) && uploadedFile == old(uploadedFile)
      ensures read.Loaded? ==> alert == FileRejection(file)
      ensures alert.None? <==> read.Loaded? && FileRejection(file).None?
      ensures alert.None? ==> uploadedFile == Some(file) && button == ButtonFor(true, selectedTargetRole.Some?)
      ensures alert.Some? ==> uploadedFile == old(uploadedFile) && button == old(button)
      ensures selectedTargetRole == old(selectedTargetRole) && resultsShown == old(resultsShown)
    {
      if ContentCheck(file, read).Some? {
        alert := Some(FileErrorMessage);
      } else {
        alert := HandleFileSelect(file);
      }
    }

    /** The role select's change handler: the first role with the chosen id, if any. */
    method SelectRole(roles: seq<ResumeBuilder.JobRole>, value: string)
      requires Valid()
      modifies this
      ensures Valid()
      ensures selectedTargetRole == FindRole(roles, value)
      ensures button == ButtonFor(uploadedFile.Some?, selectedTargetRole.Some?)
      ensures uploadedFile == old(uploadedFile) && resultsShown == old(resultsShown)
    {
      selectedTargetRole := FindRole(roles, value);
      button := UpdateAnalyzeButton(uploadedFile.Some?, selectedTargetRole.Some?);
    }

    /** `removeFile`: forgets the file and hides the results. */
    method RemoveFile()
      requires Valid()
      modifies this
      ensures Valid()
      ensures uploadedFile.None? && selectedTargetRole == old(selectedTargetRole) && !resultsShown
      ensures button == ButtonFor(false, selectedTargetRole.Some?) && button.disabled
    {
      uploadedFile := None;
      button := UpdateAnalyzeButton(false, selectedTargetRole.Some?);
      resultsShown := false;
    }

    /**
     * `resetAnalyzer`: forgets the file and the role. The button is updated
     * by `removeFile` only, before the role is cleared, so its label still
     * asks only for the upload when a role had been selected.
     */
    method ResetAnalyzer()
      requires Valid()
      modifies this
      ensures Valid()
      ensures uploadedFile.None? && selectedTargetRole.None? && !resultsShown
      ensures button == ButtonFor(false, old(selectedTargetRole).Some?) && button.disabled
    {
      RemoveFile();
      resultsShown := false;
      selectedTargetRole := None;
    }

    /** The analyze click handler starts an analysis only with a file and a role. */
    function CanAnalyze(): (r: bool)
      reads this
      requires Valid()
      ensures r <==> !button.disabled
    {
      uploadedFile.Some? && selectedTargetRole.Some?
    }
  }

  /** After a reset with a role selected, the label no longer matches the state it describes. */
  lemma StaleLabelAfterReset()
    ensures ButtonFor(false, true).caption != ButtonFor(false, false).caption
  {
    var a, b := MissingItems(false, true), MissingItems(false, false);
    assert a == ["upload a resume"];
    assert b == ["upload a resume", "select target role"] && b[1..] == ["select target role"];
    assert |Join(a, " and ")| == 15;
    assert |Join(b, " and ")| == 15 + 5 + 18;
  }

  /** `jobRoles.find(role => role.id === value)`. */
  function FindRole(roles: seq<ResumeBuilder.JobRole>, value: string): (r: Option<ResumeBuilder.JobRole>)
    ensures r.Some? ==> r.value in roles && r.value.id == value
    ensures r.None? <==> forall i :: 0 <= i < |roles| ==> roles[i].id != value
    decreases |roles|
  {
    if |roles| == 0 then None
    else if roles[0].id == value then Some(roles[0])
    else FindRole(roles[1..], value)
  }

  /** `find` returns the first match. */
  lemma {:induction false} FindRoleFirst(roles: seq<ResumeBuilder.JobRole>, value: string, k: nat)
    requires k < |roles| && roles[k].id == value
    requires forall i :: 0 <= i < k ==> roles[i].id != value
    ensures FindRole(roles, value) == Some(roles[k])
    decreases k
  {
    if k > 0 {
      assert roles[1..][k - 1] == roles[k];
      FindRoleFirst(roles[1..], value, k - 1);
    }
  }
}
