/**
 * The quick-enquiry endpoint: the request-method guard, trimming of the
 * posted fields, the error list built by a fixed series of checks, and the
 * subject of the notification mail. `filter_var($email,
 * FILTER_VALIDATE_EMAIL)` is the uninterpreted predicate `validEmail`.
 */
module EnquiryForm {
  import opened Outcomes
  import opened Strings
  import opened PhpRuntime

  /** The request as received: its method and the three posted fields, None when absent. */
  datatype EnquiryRequest = EnquiryRequest(httpMethod: string, name: Option<string>, email: Option<string>, message: Option<string>)

  /** The fields after `trim($_POST[...] ?? '')`. */
  datatype Enquiry = Enquiry(name: string, email: string, message: string)

  /** The endpoint's result: the exception message it answers with, or the enquiry and the mail subject. */
  datatype Outcome = Rejected(message: string) | Send(enquiry: Enquiry, subject: string)

  const OnlyPost := "Only POST method allowed"
  const NameRequired := "Name is required"
  const EmailRequired := "Email is required"
  const InvalidEmail := "Invalid email format"
  const MessageRequired := "Message is required"
  const MessageTooLong := "Message is too long (max 1000 characters)"
  const MaxMessageBytes := 1000
  const SubjectPrefix := "Quick Enquiry from "

  /** The checks' messages, in the order the checks run. */
  const Messages := [NameRequired, EmailRequired, InvalidEmail, MessageRequired, MessageTooLong]

  function Cleaned(req: EnquiryRequest): (e: Enquiry)
    ensures e.name == Trim(Posted(req.name)) && e.email == Trim(Posted(req.email))
    ensures e.message == Trim(Posted(req.message))
  {
    Enquiry(Trim(Posted(req.name)), Trim(Posted(req.email)), Trim(Posted(req.message)))
  }

  /** The error list: each failing check's message, in check order. */
  function Errors(e: Enquiry, validEmail: string -> bool): seq<string> {
    When(IsEmptyString(e.name), NameRequired)
    + When(IsEmptyString(e.email), EmailRequired)
    + When(!IsEmptyString(e.email) && !validEmail(e.email), InvalidEmail)
    + When(IsEmptyString(e.message), MessageRequired)
    + When(|e.message| > MaxMessageBytes, MessageTooLong)
  }

  lemma MessagesDistinct()
    ensures NoDuplicates(Messages)
  {
    assert |NameRequired| == 16 && |EmailRequired| == 17 && |InvalidEmail| == 20;
    assert |MessageRequired| == 19 && |MessageTooLong| == 41;
  }

  /** The validation as written: each failing check appends its message to `$errors`. */
  method Validate(e: Enquiry, validEmail: string -> bool) returns (errors: seq<string>)
    ensures errors == Errors(e, validEmail)
  {
    errors := [];
    if IsEmptyString(e.name) {
      errors := errors + [NameRequired];
    }
    AppendWhen([], IsEmptyString(e.name), NameRequired, errors);
    EmptyPrefix(When(IsEmptyString(e.name), NameRequired));
    ghost var named := errors;
    if IsEmptyString(e.email) {
      errors := errors + [EmailRequired];
    } else if !validEmail(e.email) {
      errors := errors + [InvalidEmail];
    }
    AppendEitherWhen(named, IsEmptyString(e.email), EmailRequired,
      !IsEmptyString(e.email) && !validEmail(e.email), InvalidEmail, errors);
    ghost var addressed := errors;
    if IsEmptyString(e.message) {
      errors := errors + [MessageRequired];
    }
    AppendWhen(addressed, IsEmptyString(e.message), MessageRequired, errors);
    ghost var written := errors;
    if |e.message| > MaxMessageBytes {
      errors := errors + [MessageTooLong];
    }
    AppendWhen(written, |e.message| > MaxMessageBytes, MessageTooLong, errors);
  }

  /**
   * Each message is reported exactly when its condition holds: an empty
   * name, email or message; a non-empty email the validator refuses; a
   * message longer than 1000 bytes (so exactly 1000 is accepted). An empty
   * email is never also reported as malformed. The list is empty exactly
   * when every check passes.
   */
  lemma ErrorsMeaning(e: Enquiry, validEmail: string -> bool)
    ensures NameRequired in Errors(e, validEmail) <==> IsEmptyString(e.name)
    ensures EmailRequired in Errors(e, validEmail) <==> IsEmptyString(e.email)
    ensures InvalidEmail in Errors(e, validEmail) <==> !IsEmptyString(e.email) && !validEmail(e.email)
    ensures !(EmailRequired in Errors(e, validEmail) && InvalidEmail in Errors(e, validEmail))
    ensures MessageRequired in Errors(e, validEmail) <==> IsEmptyString(e.message)
    ensures MessageTooLong in Errors(e, validEmail) <==> |e.message| > MaxMessageBytes
    ensures Errors(e, validEmail) == [] <==>
      !IsEmptyString(e.name) && !IsEmptyString(e.email) && validEmail(e.email)
      && !IsEmptyString(e.message) && |e.message| <= MaxMessageBytes
  {
    MessagesDistinct();
  }

  /** A posted name of nothing but whitespace counts as missing. */
  lemma BlankNameMissing(req: EnquiryRequest, validEmail: string -> bool)
    requires req.name.Some? && AllTrimBytes(req.name.value)
    ensures NameRequired in Errors(Cleaned(req), validEmail)
  {
    TrimEmpty(req.name.value);
    ErrorsMeaning(Cleaned(req), validEmail);
  }

  /**
   * The endpoint as written: a non-POST request is refused first; otherwise
   * the trimmed fields are validated, any error rejects the request with
   * the messages joined by ", ", and for an accepted enquiry the handler
   * builds the subject "Quick Enquiry from " and the trimmed name.  As
   * written, `send` then fails (see `Mailer.SubjectAssignmentLost`).
   */
  method ProcessEnquiry(req: EnquiryRequest, validEmail: string -> bool) returns (outcome: Outcome)
    ensures req.httpMethod != "POST" ==> outcome == Rejected(OnlyPost)
    ensures req.httpMethod == "POST" ==>
      (outcome.Rejected? <==> Errors(Cleaned(req), validEmail) != [])
      && (outcome.Rejected? ==> outcome.message == Join(Errors(Cleaned(req), validEmail), ", "))
      && (outcome.Send? ==> outcome.enquiry == Cleaned(req)
                            && outcome.subject == SubjectPrefix + Cleaned(req).name)
  {
    if req.httpMethod != "POST" {
      return Rejected(OnlyPost);
    }
    var name := Trim(Posted(req.name));
    var email := Trim(Posted(req.email));
    var message := Trim(Posted(req.message));
    var errors := Validate(Enquiry(name, email, message), validEmail);
    if errors != [] {
      return Rejected(Join(errors, ", "));
    }
    outcome := Send(Enquiry(name, email, message), SubjectPrefix + name);
  }

  /** An accepted enquiry always names a sender: the subject is longer than its fixed prefix. */
  lemma AcceptedSubjectNamesSender(req: EnquiryRequest, validEmail: string -> bool)
    requires req.httpMethod == "POST" && Errors(Cleaned(req), validEmail) == []
    ensures |SubjectPrefix + Cleaned(req).name| > |SubjectPrefix|
  {
    ErrorsMeaning(Cleaned(req), validEmail);
  }
}

/**
 * The contact-page endpoint: the error-list validation of the current
 * handler and the older first-failure validator that precedes it in the
 * same file. `validEmail` is `filter_var(..., FILTER_VALIDATE_EMAIL)` and
 * `escape` is `mysqli_real_escape_string`, both uninterpreted.
 */
module ContactForm {
  import opened Outcomes
  import opened Strings
  import opened PhpRuntime

  /** The request as received; `newsletter` and `privacy` say whether those checkboxes were posted. */
  datatype ContactRequest = ContactRequest(
    httpMethod: string,
    firstName: Option<string>, lastName: Option<string>, email: Option<string>,
    phone: Option<string>, subject: Option<string>, message: Option<string>,
    newsletter: bool, privacy: bool)

  /** The fields after trimming, the newsletter flag as "Yes"/"No" and the privacy consent. */
  datatype Contact = Contact(
    firstName: string, lastName: string, email: string, phone: string,
    subject: string, message: string, newsletter: string, privacy: bool)

  datatype Outcome = Rejected(message: string) | Send(contact: Contact, fullName: string, subject: string)

  const OnlyPost := "Only POST method allowed"
  const FirstNameRequired := "First name is required"
  const LastNameRequired := "Last name is required"
  const EmailRequired := "Email is required"
  const InvalidEmail := "Invalid email format"
  const SubjectRequired := "Subject is required"
  const MessageRequired := "Message is required"
  const PrivacyRequired := "You must agree to the Privacy Policy and Terms of Service"
  const MessageTooLong := "Message is too long"
  const MaxMessageBytes := 5000
  const SubjectPrefix := "Contact Form - "

  const Messages := [FirstNameRequired, LastNameRequired, EmailRequired, InvalidEmail,
                     SubjectRequired, MessageRequired, PrivacyRequired, MessageTooLong]

  function Cleaned(req: ContactRequest): (c: Contact)
    ensures c.firstName == Trim(Posted(req.firstName)) && c.lastName == Trim(Posted(req.lastName))
    ensures c.email == Trim(Posted(req.email)) && c.phone == Trim(Posted(req.phone))
    ensures c.subject == Trim(Posted(req.subject)) && c.message == Trim(Posted(req.message))
    ensures c.newsletter == (if req.newsletter then "Yes" else "No") && c.privacy == req.privacy
  {
    Contact(Trim(Posted(req.firstName)), Trim(Posted(req.lastName)), Trim(Posted(req.email)),
            Trim(Posted(req.phone)), Trim(Posted(req.subject)), Trim(Posted(req.message)),
            if req.newsletter then "Yes" else "No", req.privacy)
  }

  /** The error list: each failing check's message, in check order. */
  function Errors(c: Contact, validEmail: string -> bool): seq<string> {
    When(IsEmptyString(c.firstName), FirstNameRequired)
    + When(IsEmptyString(c.lastName), LastNameRequired)
    + When(IsEmptyString(c.email), EmailRequired)
    + When(!IsEmptyString(c.email) && !validEmail(c.email), InvalidEmail)
    + When(IsEmptyString(c.subject), SubjectRequired)
    + When(IsEmptyString(c.message), MessageRequired)
    + When(!c.privacy, PrivacyRequired)
    + When(|c.message| > MaxMessageBytes, MessageTooLong)
  }

  lemma MessagesDistinct()
    ensures NoDuplicates(Messages)
  {
    assert |FirstNameRequired| == 22 && |LastNameRequired| == 21 && |EmailRequired| == 17;
    assert |InvalidEmail| == 20 && |PrivacyRequired| == 57;
    assert |SubjectRequired| == 19 && |MessageRequired| == 19 && |MessageTooLong| == 19;
    assert SubjectRequired[0] == 'S' && MessageRequired[0] == 'M' && MessageTooLong[0] == 'M';
    assert MessageRequired[11] == 'r' && MessageTooLong[11] == 't';
  }

  /** The validation as written: each failing check appends its message to `$errors`. */
  method Validate(c: Contact, validEmail: string -> bool) returns (errors: seq<string>)
    ensures errors == Errors(c, validEmail)
  {
    errors := [];
    if IsEmptyString(c.firstName) {
      errors := errors + [FirstNameRequired];
    }
    AppendWhen([], IsEmptyString(c.firstName), FirstNameRequired, errors);
    EmptyPrefix(When(IsEmptyString(c.firstName), FirstNameRequired));
    ghost var first := errors;
    if IsEmptyString(c.lastName) {
      errors := errors + [LastNameRequired];
    }
    AppendWhen(first, IsEmptyString(c.lastName), LastNameRequired, errors);
    ghost var names := errors;
    if IsEmptyString(c.email) {
      errors := errors + [EmailRequired];
    } else if !validEmail(c.email) {
      errors := errors + [InvalidEmail];
    }
    AppendEitherWhen(names, IsEmptyString(c.email), EmailRequired,
      !IsEmptyString(c.email) && !validEmail(c.email), InvalidEmail, errors);
    ghost var addressed := errors;
    if IsEmptyString(c.subject) {
      errors := errors + [SubjectRequired];
    }
    AppendWhen(addressed, IsEmptyString(c.subject), SubjectRequired, errors);
    ghost var titled := errors;
    if IsEmptyString(c.message) {
      errors := errors + [MessageRequired];
    }
    AppendWhen(titled, IsEmptyString(c.message), MessageRequired, errors);
    ghost var written := errors;
    if !c.privacy {
      errors := errors + [PrivacyRequired];
    }
    AppendWhen(written, !c.privacy, PrivacyRequired, errors);
    ghost var agreed := errors;
    if |c.message| > MaxMessageBytes {
      errors := errors + [MessageTooLong];
    }
    AppendWhen(agreed, |c.message| > MaxMessageBytes, MessageTooLong, errors);
  }

  /**
   * Each message is reported exactly when its condition holds; an empty
   * and a malformed email are never both reported; an unticked privacy box
   * is always an error; the list is empty exactly when every check passes.
   */
  lemma ErrorsMeaning(c: Contact, validEmail: string -> bool)
    ensures FirstNameRequired in Errors(c, validEmail) <==> IsEmptyString(c.firstName)
    ensures LastNameRequired in Errors(c, validEmail) <==> IsEmptyString(c.lastName)
    ensures EmailRequired in Errors(c, validEmail) <==> IsEmptyString(c.email)
    ensures InvalidEmail in Errors(c, validEmail) <==> !IsEmptyString(c.email) && !validEmail(c.email)
    ensures !(EmailRequired in Errors(c, validEmail) && InvalidEmail in Errors(c, validEmail))
    ensures SubjectRequired in Errors(c, validEmail) <==> IsEmptyString(c.subject)
    ensures MessageRequired in Errors(c, validEmail) <==> IsEmptyString(c.message)
    ensures PrivacyRequired in Errors(c, validEmail) <==> !c.privacy
    ensures MessageTooLong in Errors(c, validEmail) <==> |c.message| > MaxMessageBytes
    ensures Errors(c, validEmail) == [] <==>
      !IsEmptyString(c.firstName) && !IsEmptyString(c.lastName) && !IsEmptyString(c.email)
      && validEmail(c.email) && !IsEmptyString(c.subject) && !IsEmptyString(c.message)
      && c.privacy && |c.message| <= MaxMessageBytes
  {
    SenderChecksReported(c, validEmail);
    ContentChecksReported(c, validEmail);
  }

  /** The name and email checks of `ErrorsMeaning`. */
  lemma SenderChecksReported(c: Contact, validEmail: string -> bool)
    ensures FirstNameRequired in Errors(c, validEmail) <==> IsEmptyString(c.firstName)
    ensures LastNameRequired in Errors(c, validEmail) <==> IsEmptyString(c.lastName)
    ensures EmailRequired in Errors(c, validEmail) <==> IsEmptyString(c.email)
    ensures InvalidEmail in Errors(c, validEmail) <==> !IsEmptyString(c.email) && !validEmail(c.email)
  {
    MessagesDiffer();
  }

  /** The subject, message and privacy checks of `ErrorsMeaning`. */
  lemma ContentChecksReported(c: Contact, validEmail: string -> bool)
    ensures SubjectRequired in Errors(c, validEmail) <==> IsEmptyString(c.subject)
    ensures MessageRequired in Errors(c, validEmail) <==> IsEmptyString(c.message)
    ensures PrivacyRequired in Errors(c, validEmail) <==> !c.privacy
    ensures MessageTooLong in Errors(c, validEmail) <==> |c.message| > MaxMessageBytes
  {
    MessagesDiffer();
  }

  /** The pairwise differences among the messages, as ground facts. */
  lemma MessagesDiffer()
    ensures FirstNameRequired != LastNameRequired && FirstNameRequired != EmailRequired && FirstNameRequired != InvalidEmail
    ensures FirstNameRequired != SubjectRequired && FirstNameRequired != MessageRequired
    ensures FirstNameRequired != PrivacyRequired && FirstNameRequired != MessageTooLong
    ensures LastNameRequired != EmailRequired && LastNameRequired != InvalidEmail && LastNameRequired != SubjectRequired
    ensures LastNameRequired != MessageRequired && LastNameRequired != PrivacyRequired && LastNameRequired != MessageTooLong
    ensures EmailRequired != InvalidEmail && EmailRequired != SubjectRequired && EmailRequired != MessageRequired
    ensures EmailRequired != PrivacyRequired && EmailRequired != MessageTooLong
    ensures InvalidEmail != SubjectRequired && InvalidEmail != MessageRequired
    ensures InvalidEmail != PrivacyRequired && InvalidEmail != MessageTooLong
    ensures SubjectRequired != MessageRequired && SubjectRequired != PrivacyRequired && SubjectRequired != MessageTooLong
    ensures MessageRequired != PrivacyRequired && MessageRequired != MessageTooLong
    ensures PrivacyRequired != MessageTooLong
  {
    MessagesDistinct();
    assert Messages[0] == FirstNameRequired && Messages[1] == LastNameRequired;
    assert Messages[2] == EmailRequired && Messages[3] == InvalidEmail;
    assert Messages[4] == SubjectRequired && Messages[5] == MessageRequired;
    assert Messages[6] == PrivacyRequired && Messages[7] == MessageTooLong;
  }

  /**
   * The endpoint as written: non-POST is refused first; otherwise any
   * validation error rejects with the messages joined by ", ", and for an
   * accepted message the handler builds the subject "Contact Form - " and
   * the subject field, from "first last".  As written, `send` then fails
   * (see `Mailer.SubjectAssignmentLost`).
   */
  method ProcessContact(req: ContactRequest, validEmail: string -> bool) returns (outcome: Outcome)
    ensures req.httpMethod != "POST" ==> outcome == Rejected(OnlyPost)
    ensures req.httpMethod == "POST" ==>
      (outcome.Rejected? <==> Errors(Cleaned(req), validEmail) != [])
      && (outcome.Rejected? ==> outcome.message == Join(Errors(Cleaned(req), validEmail), ", "))
      && (outcome.Send? ==>
            outcome.contact == Cleaned(req)
            && outcome.fullName == Cleaned(req).firstName + " " + Cleaned(req).lastName
            && outcome.subject == SubjectPrefix + Cleaned(req).subject)
  {
    if req.httpMethod != "POST" {
      return Rejected(OnlyPost);
    }
    var contact := Contact(Trim(Posted(req.firstName)), Trim(Posted(req.lastName)), Trim(Posted(req.email)),
                           Trim(Posted(req.phone)), Trim(Posted(req.subject)), Trim(Posted(req.message)),
                           if req.newsletter then "Yes" else "No", req.privacy);
    var errors := Validate(contact, validEmail);
    if errors != [] {
      return Rejected(Join(errors, ", "));
    }
    outcome := Send(contact, contact.firstName + " " + contact.lastName, SubjectPrefix + contact.subject);
  }

  /** A request without the privacy checkbox is never mailed. */
  lemma PrivacyConsentRequired(req: ContactRequest, validEmail: string -> bool)
    requires !req.privacy
    ensures PrivacyRequired in Errors(Cleaned(req), validEmail)
  {
    ErrorsMeaning(Cleaned(req), validEmail);
  }

  // -------------------------------------------------------------- older block

  /** The fields the older validator reads (`trim` of an absent field gives ""). */
  datatype LegacyRequest = LegacyRequest(
    firstName: Option<string>, lastName: Option<string>, email: Option<string>,
    subject: Option<string>, message: Option<string>)

  const FillRequired := "Please fill in all required fields."
  const EnterValidEmail := "Please enter a valid email address."

  /** A posted field as the older block holds it: escaped after trimming. */
  function LegacyField(v: Option<string>, escape: string -> string): string {
    escape(Trim(Posted(v)))
  }

  /**
   * The older else-if chain: the message it sets, or None when the
   * submission goes on to be stored.
   */
  function LegacyCheck(req: LegacyRequest, escape: string -> string, validEmail: string -> bool): (r: Option<string>)
    ensures r.Some? ==> r.value == FillRequired || r.value == EnterValidEmail
  {
    if IsEmptyString(LegacyField(req.firstName, escape)) || IsEmptyString(LegacyField(req.lastName, escape))
       || IsEmptyString(LegacyField(req.email, escape)) || IsEmptyString(LegacyField(req.subject, escape))
       || IsEmptyString(LegacyField(req.message, escape)) then
      Some(FillRequired)
    else if !validEmail(LegacyField(req.email, escape)) then
      Some(EnterValidEmail)
    else
      None
  }

  /** Every field the older chain requires is non-empty after trimming and escaping. */
  predicate LegacyAllFilled(req: LegacyRequest, escape: string -> string) {
    !IsEmptyString(LegacyField(req.firstName, escape)) && !IsEmptyString(LegacyField(req.lastName, escape))
    && !IsEmptyString(LegacyField(req.email, escape)) && !IsEmptyString(LegacyField(req.subject, escape))
    && !IsEmptyString(LegacyField(req.message, escape))
  }

  /**
   * Only the first failure is reported: a missing field hides a malformed
   * email, the email message appears exactly when every field was filled
   * and the escaped email fails, and the submission goes through exactly
   * when all fields are filled and the escaped email validates.
   */
  lemma LegacyFirstFailure(req: LegacyRequest, escape: string -> string, validEmail: string -> bool)
    ensures IsEmptyString(LegacyField(req.email, escape)) ==> LegacyCheck(req, escape, validEmail) == Some(FillRequired)
    ensures LegacyCheck(req, escape, validEmail) == Some(FillRequired) <==> !LegacyAllFilled(req, escape)
    ensures LegacyCheck(req, escape, validEmail) == Some(EnterValidEmail) <==>
      LegacyAllFilled(req, escape) && !validEmail(LegacyField(req.email, escape))
    ensures LegacyCheck(req, escape, validEmail).None? <==>
      LegacyAllFilled(req, escape) && validEmail(LegacyField(req.email, escape))
  {
    var first, last, email := LegacyField(req.firstName, escape), LegacyField(req.lastName, escape), LegacyField(req.email, escape);
    var subject, message := LegacyField(req.subject, escape), LegacyField(req.message, escape);
    var missing := IsEmptyString(first) || IsEmptyString(last) || IsEmptyString(email)
                   || IsEmptyString(subject) || IsEmptyString(message);
    assert missing <==> !LegacyAllFilled(req, escape);
    assert LegacyCheck(req, escape, validEmail)
        == if missing then Some(FillRequired) else if !validEmail(email) then Some(EnterValidEmail) else None;
    LegacyMessagesDiffer();
  }

  lemma LegacyMessagesDiffer()
    ensures FillRequired != EnterValidEmail
  {
    assert FillRequired[7] == 'f' && EnterValidEmail[7] == 'e';
  }
}

/**
 * The inquiry-storing endpoint: an ordered chain of guard clauses, each
 * answering with the first failing message. The fields are not trimmed.
 */
module ContactHandler {
  import opened Outcomes
  import opened PhpRuntime

  datatype HandlerRequest = HandlerRequest(
    httpMethod: string, name: Option<string>, email: Option<string>,
    subject: Option<string>, message: Option<string>)

  /** The JSON failure message, or the four values bound to the INSERT. */
  datatype Result = Rejected(message: string) | Store(name: string, email: string, subject: string, message: string)

  const InvalidMethod := "Invalid request method"
  const FieldsRequired := "Name, email, and message are required"
  const InvalidFormat := "Invalid email format"

  function Handle(req: HandlerRequest, validEmail: string -> bool): (r: Result)
    ensures r.Rejected? ==> r.message in {InvalidMethod, FieldsRequired, InvalidFormat}
    ensures r.Store? ==> r == Store(Posted(req.name), Posted(req.email), Posted(req.subject), Posted(req.message))
  {
    if req.httpMethod != "POST" then Rejected(InvalidMethod)
    else
      var name, email, subject, message := Posted(req.name), Posted(req.email), Posted(req.subject), Posted(req.message);
      if IsEmptyString(name) || IsEmptyString(email) || IsEmptyString(message) then Rejected(FieldsRequired)
      else if !validEmail(email) then Rejected(InvalidFormat)
      else Store(name, email, subject, message)
  }

  /**
   * A non-POST request is refused before any field is looked at; an absent
   * or empty ("" or "0") name, email or message gives the combined message,
   * so an empty email is never reported as malformed; a present email the
   * validator refuses gives the format message; everything else is stored.
   */
  lemma GuardOrder(req: HandlerRequest, validEmail: string -> bool)
    ensures req.httpMethod != "POST" ==> Handle(req, validEmail) == Rejected(InvalidMethod)
    ensures req.httpMethod == "POST" ==>
      (Handle(req, validEmail) == Rejected(FieldsRequired) <==>
         IsEmptyString(Posted(req.name)) || IsEmptyString(Posted(req.email)) || IsEmptyString(Posted(req.message)))
    ensures Handle(req, validEmail) == Rejected(InvalidFormat) <==>
      req.httpMethod == "POST" && !IsEmptyString(Posted(req.name)) && !IsEmptyString(Posted(req.email))
      && !IsEmptyString(Posted(req.message)) && !validEmail(Posted(req.email))
    ensures Handle(req, validEmail).Store? <==>
      req.httpMethod == "POST" && !IsEmptyString(Posted(req.name)) && !IsEmptyString(Posted(req.email))
      && !IsEmptyString(Posted(req.message)) && validEmail(Posted(req.email))
  {
    assert |InvalidMethod| == 22 && |FieldsRequired| == 37 && |InvalidFormat| == 20;
  }

  /** The subject is optional: it never decides whether the request is refused, or with which message. */
  lemma SubjectOptional(req: HandlerRequest, subject: Option<string>, validEmail: string -> bool)
    ensures Handle(req.(subject := subject), validEmail).Rejected? <==> Handle(req, validEmail).Rejected?
    ensures Handle(req, validEmail).Rejected? ==> Handle(req.(subject := subject), validEmail) == Handle(req, validEmail)
  {
  }
}
