/**
 * The bundled mail class: a stateful builder that collects the sender,
 * recipients, reply address, attachments and extra header lines, and a
 * `send` that checks the message, assembles its header list and, when
 * there are attachments, a multipart/mixed body (section 5.1.1 of
 * RFC 2046) whose attachment parts are base64-encoded (section 6.8 of
 * RFC 2045). Addresses take the name-addr shape of section 3.4 of
 * RFC 5322, with the display name left unquoted.
 */
module Mailer {
  import opened Outcomes
  import opened Strings
  import opened PhpRuntime

  datatype Address = Address(address: string, name: string)

  datatype Attachment =
    | FileAttachment(path: string, name: string)
    | StringAttachment(content: string, filename: string)

  /** The whole state `send` reads. `dynamicProps` holds properties created by `__set`. */
  datatype MailerState = MailerState(
    from: Option<Address>, to: seq<Address>, replyTo: Option<Address>,
    attachments: seq<Attachment>, customHeaders: seq<string>,
    isHtml: bool, subject: string, body: string, exceptions: bool,
    priority: int, dynamicProps: map<string, string>)

  /**
   * What `send` calls out to: `mail()`, `uniqid()`, the file system
   * (`file_exists` and `file_get_contents`), `chunk_split(base64_encode(·))`
   * and `basename`.
   */
  datatype Env = Env(
    mail: MailCall -> bool,
    uniqid: string,
    files: map<string, string>,
    encode: string -> string,
    basename: string -> string)

  /** One call of `mail($to, $subject, $body, $headers)`. */
  datatype MailCall = MailCall(to: string, subject: string, body: string, headers: string)

  /** How `send` ends: it returns a flag, or an exception leaves it. */
  datatype SendResult = Returned(success: bool) | Raised(message: string)

  // ----------------------------------------------------------------- addresses

  /** `formatAddress`: "name <address>" with a name, else the bare address. */
  function FormatAddress(a: Address): (r: string)
    ensures |r| >= |a.address|
  {
    if !IsEmptyString(a.name) then a.name + " <" + a.address + ">" else a.address
  }

  /** The address between the first '<' and a closing '>' at the very end, if there is one. */
  function AngleAddress(r: string): Option<string> {
    if |r| == 0 || r[|r| - 1] != '>' then None
    else match IndexOfChar(r, '<')
      case None => None
      case Some(i) => if i < |r| - 1 then Some(r[i + 1..|r| - 1]) else None
  }

  /**
   * With a display name that holds no '<', the address can be read back
   * from between the angle brackets; without a name, the bare address is
   * all there is.
   */
  lemma FormatAddressRoundTrip(a: Address)
    ensures !IsEmptyString(a.name) && '<' !in a.name ==> AngleAddress(FormatAddress(a)) == Some(a.address)
    ensures IsEmptyString(a.name) ==> FormatAddress(a) == a.address
  {
    if !IsEmptyString(a.name) && '<' !in a.name {
      var r := FormatAddress(a);
      var i := |a.name| + 1;
      assert r[i] == '<';
      forall j | 0 <= j < i ensures r[j] != '<' {
        if j < |a.name| { assert r[j] == a.name[j]; }
      }
      IndexOfCharAt(r, '<', i);
      assert r[i + 1..|r| - 1] == a.address;
    }
  }

  // ----------------------------------------------------------------- checks

  const NoFrom := "From address is required"
  const NoRecipient := "At least one recipient is required"
  const NoSubject := "Subject is required"

  /** The three checks at the top of `send`, in order; `None` when all pass. */
  function SendCheck(st: MailerState): (r: Option<string>)
    ensures r.None? <==> st.from.Some? && !IsEmptyString(st.from.value.address) && |st.to| > 0 && !IsEmptyString(st.subject)
    ensures (st.from.None? || IsEmptyString(st.from.value.address)) ==> r == Some(NoFrom)
    ensures st.from.Some? && !IsEmptyString(st.from.value.address) && |st.to| == 0 ==> r == Some(NoRecipient)
    ensures st.from.Some? && !IsEmptyString(st.from.value.address) && |st.to| > 0 && IsEmptyString(st.subject) ==> r == Some(NoSubject)
  {
    if st.from.None? || IsEmptyString(st.from.value.address) then Some(NoFrom)
    else if |st.to| == 0 then Some(NoRecipient)
    else if IsEmptyString(st.subject) then Some(NoSubject)
    else None
  }

  // ----------------------------------------------------------------- headers

  const HtmlType := "Content-Type: text/html; charset=UTF-8"
  const PlainType := "Content-Type: text/plain; charset=UTF-8"
  const MimeVersion := "MIME-Version: 1.0"
  const XMailer := "X-Mailer: SmartResume PHPMailer"

  function ContentTypeHeader(isHtml: bool): string {
    if isHtml then HtmlType else PlainType
  }

  /** The boundary `send` picks when there are attachments. */
  function Boundary(env: Env): string {
    "boundary_" + env.uniqid
  }

  function MultipartHeader(boundary: string): string {
    "Content-Type: multipart/mixed; boundary=\"" + boundary + "\""
  }

  /** The fixed headers: From, Reply-To if set, the content type, the two constant ones, X-Priority below 3. */
  function FixedHeaders(st: MailerState, from: Address): seq<string> {
    ["From: " + FormatAddress(from)]
    + (if st.replyTo.Some? then ["Reply-To: " + FormatAddress(st.replyTo.value)] else [])
    + [ContentTypeHeader(st.isHtml), MimeVersion, XMailer]
    + (if st.priority < 3 then ["X-Priority: " + IntToString(st.priority)] else [])
  }

  /** The header list `send` joins with CRLF. */
  function HeaderList(st: MailerState, from: Address, env: Env): seq<string> {
    FixedHeaders(st, from) + st.customHeaders
    + (if |st.attachments| > 0 then [MultipartHeader(Boundary(env))] else [])
  }

  /**
   * From comes first; MIME-Version and X-Mailer are always there; the custom
   * headers follow the fixed ones in insertion order; with attachments the
   * list ends with the multipart content type.
   */
  lemma HeaderListLayout(st: MailerState, from: Address, env: Env)
    ensures var h := HeaderList(st, from, env); var n := |FixedHeaders(st, from)|;
      && h[0] == "From: " + FormatAddress(from)
      && MimeVersion in h && XMailer in h
      && n + |st.customHeaders| <= |h|
      && h[n..n + |st.customHeaders|] == st.customHeaders
      && (|st.attachments| > 0 <==> |h| == n + |st.customHeaders| + 1)
      && (|st.attachments| > 0 ==> h[|h| - 1] == MultipartHeader(Boundary(env)))
  {
    var h := HeaderList(st, from, env);
    var f := FixedHeaders(st, from);
    var first := ["From: " + FormatAddress(from)];
    var reply := if st.replyTo.Some? then ["Reply-To: " + FormatAddress(st.replyTo.value)] else [];
    var middle := [ContentTypeHeader(st.isHtml), MimeVersion, XMailer];
    var prio := if st.priority < 3 then ["X-Priority: " + IntToString(st.priority)] else [];
    assert f == first + reply + middle + prio;
    var k := |first + reply|;
    assert f[k + 1] == MimeVersion && f[k + 2] == XMailer;
    assert h[k + 1] == MimeVersion && h[k + 2] == XMailer;
  }

  /** The Reply-To header is there exactly when a reply address was set, and X-Priority exactly when the priority is below 3. */
  lemma OptionalHeaders(st: MailerState, from: Address)
    ensures |FixedHeaders(st, from)| == 4 + (if st.replyTo.Some? then 1 else 0) + (if st.priority < 3 then 1 else 0)
    ensures st.replyTo.Some? ==> FixedHeaders(st, from)[1] == "Reply-To: " + FormatAddress(st.replyTo.value)
    ensures FixedHeaders(st, from)[if st.replyTo.Some? then 2 else 1] == ContentTypeHeader(st.isHtml)
  {
  }

  /** `addCustomHeader`: "name: value", or the bare name when no value is given. */
  function CustomHeader(name: string, value: Option<string>): (r: string)
    ensures value.None? ==> r == name
    ensures value.Some? ==> |r| == |name| + 2 + |value.value| && r[..|name|] == name && r[|name|..|name| + 2] == ": "
  {
    if value.None? then name else name + ": " + value.value
  }

  // --------------------------------------------------------- multipart body

  const Preamble := "This is a multi-part message in MIME format.\r\n\r\n"
  const Crlf := "\r\n"
  const EightBit := "Content-Transfer-Encoding: 8bit\r\n\r\n"
  const BlankLine := "\r\n\r\n"
  const OctetStream := "Content-Type: application/octet-stream\r\n"
  const DispositionStart := "Content-Disposition: attachment; filename=\""
  const DispositionEnd := "\"\r\n"
  const Base64Line := "Content-Transfer-Encoding: base64\r\n\r\n"

  function Delimiter(boundary: string): string {
    "--" + boundary + Crlf
  }

  function CloseDelimiter(boundary: string): string {
    "--" + boundary + "--" + Crlf
  }

  /** The first part after its delimiter: the message body itself, sent as 8bit. */
  function MainContent(isHtml: bool, body: string): string {
    ContentTypeHeader(isHtml) + Crlf + EightBit + body + BlankLine
  }

  /** The headers and the encoded content of one attachment part. */
  function Payload(filename: string, encoded: string): string {
    OctetStream + DispositionStart + filename + DispositionEnd + Base64Line + encoded + Crlf
  }

  /** The file name an attachment is sent under. */
  function AttachmentName(a: Attachment, env: Env): string {
    match a
    case StringAttachment(_, filename) => filename
    case FileAttachment(path, name) => if !IsEmptyString(name) then name else env.basename(path)
  }

  /** What one attachment adds after its delimiter; nothing for a file that does not exist. */
  function AttachmentContent(a: Attachment, env: Env): string {
    match a
    case StringAttachment(content, _) => Payload(AttachmentName(a, env), env.encode(content))
    case FileAttachment(path, _) =>
      if path in env.files then Payload(AttachmentName(a, env), env.encode(env.files[path])) else ""
  }

  /** What one attachment adds. The delimiter is written before the file is looked up. */
  function AttachmentPart(boundary: string, a: Attachment, env: Env): string {
    Delimiter(boundary) + AttachmentContent(a, env)
  }

  function PartOf(boundary: string, env: Env): Attachment -> string {
    a => AttachmentPart(boundary, a, env)
  }

  /** `createMultipartBody`. */
  function MultipartBody(boundary: string, st: MailerState, env: Env): string {
    Preamble + (Delimiter(boundary) + MainContent(st.isHtml, st.body))
    + ConcatMap(st.attachments, PartOf(boundary, env)) + CloseDelimiter(boundary)
  }

  /** `createMultipartBody` as written: the body grows part by part. */
  method CreateMultipartBody(boundary: string, st: MailerState, env: Env) returns (body: string)
    ensures body == MultipartBody(boundary, st, env)
  {
    var delimiter := "--" + boundary + Crlf;
    body := Preamble;
    body := body + delimiter;
    var typeLine := if st.isHtml then HtmlType + Crlf else PlainType + Crlf;
    body := body + typeLine;
    body := body + EightBit;
    body := body + st.body + BlankLine;
    ghost var head := Preamble + (Delimiter(boundary) + MainContent(st.isHtml, st.body));
    assert body == head by {
      assert typeLine == ContentTypeHeader(st.isHtml) + Crlf;
      assert delimiter == Delimiter(boundary);
      Regroup(Preamble, delimiter, typeLine, EightBit, st.body, BlankLine);
    }
    for i := 0 to |st.attachments|
      invariant body == head + ConcatMap(st.attachments[..i], PartOf(boundary, env))
    {
      var attachment := st.attachments[i];
      body := body + delimiter;
      var part := AttachmentBody(attachment, env);
      body := body + part;
      assert PartOf(boundary, env)(attachment) == delimiter + part;
      ConcatMapExtend(head, st.attachments, i, PartOf(boundary, env), delimiter, part);
    }
    assert st.attachments[..|st.attachments|] == st.attachments;
    body := body + ("--" + boundary + "--" + Crlf);
  }

  /** The header lines `send` assembles before the attachments: the fixed ones, then the custom ones in order. */
  method AssembleHeaders(st: MailerState, from: Address) returns (headers: seq<string>)
    ensures headers == FixedHeaders(st, from) + st.customHeaders
  {
    ghost var reply := if st.replyTo.Some? then ["Reply-To: " + FormatAddress(st.replyTo.value)] else [];
    headers := ["From: " + FormatAddress(from)];
    if st.replyTo.Some? {
      headers := headers + ["Reply-To: " + FormatAddress(st.replyTo.value)];
    }
    ghost var addressed := headers;
    assert addressed == ["From: " + FormatAddress(from)] + reply;
    headers := headers + [ContentTypeHeader(st.isHtml)];
    headers := headers + [MimeVersion];
    headers := headers + [XMailer];
    AppendThree(addressed, ContentTypeHeader(st.isHtml), MimeVersion, XMailer);
    if st.priority < 3 {
      headers := headers + ["X-Priority: " + IntToString(st.priority)];
    }
    assert headers == FixedHeaders(st, from);
    ghost var fixedPart := headers;
    assert st.customHeaders[..0] == [];
    assert headers == fixedPart + st.customHeaders[..0];
    for i := 0 to |st.customHeaders|
      invariant headers == fixedPart + st.customHeaders[..i]
    {
      headers := headers + [st.customHeaders[i]];
    }
    assert st.customHeaders[..|st.customHeaders|] == st.customHeaders;
  }

  lemma AppendThree(a: seq<string>, x: string, y: string, z: string)
    ensures a + [x] + [y] + [z] == a + [x, y, z]
  {
  }

  /** Six pieces appended one by one, regrouped as the preamble, the delimiter and the main content. */
  lemma Regroup(p: string, d: string, t: string, e: string, b: string, l: string)
    ensures p + d + t + e + b + l == p + (d + (t + e + b + l))
  {
  }

  /** The branch of `createMultipartBody`'s loop after the delimiter. */
  method AttachmentBody(attachment: Attachment, env: Env) returns (part: string)
    ensures part == AttachmentContent(attachment, env)
  {
    part := "";
    match attachment {
      case StringAttachment(content, filename) =>
        part := Payload(filename, env.encode(content));
      case FileAttachment(path, name) =>
        var filename := if !IsEmptyString(name) then name else env.basename(path);
        if path in env.files {
          part := Payload(filename, env.encode(env.files[path]));
        }
    }
  }

  /** Parts follow insertion order: the parts of a concatenation are the concatenated parts. */
  lemma AttachmentPartsInOrder(boundary: string, xs: seq<Attachment>, ys: seq<Attachment>, env: Env)
    ensures ConcatMap(xs + ys, PartOf(boundary, env)) == ConcatMap(xs, PartOf(boundary, env)) + ConcatMap(ys, PartOf(boundary, env))
  {
    ConcatMapAppend(xs, ys, PartOf(boundary, env));
  }

  lemma Framing(pre: string, d: string, main: string, parts: string, close: string)
    ensures var b := pre + (d + main) + parts + close;
      IsPrefix(pre + d, b) && |b| >= |close| && b[|b| - |close|..] == close
  {
    var b := pre + (d + main) + parts + close;
    assert b == (pre + d) + (main + parts + close);
  }

  /**
   * The body opens with the preamble and the main part's delimiter, and
   * closes with the close delimiter.
   */
  lemma MultipartFraming(boundary: string, st: MailerState, env: Env)
    ensures var b := MultipartBody(boundary, st, env);
      && IsPrefix(Preamble + Delimiter(boundary), b)
      && |b| >= |CloseDelimiter(boundary)|
      && b[|b| - |CloseDelimiter(boundary)|..] == CloseDelimiter(boundary)
  {
    Framing(Preamble, Delimiter(boundary), MainContent(st.isHtml, st.body),
      ConcatMap(st.attachments, PartOf(boundary, env)), CloseDelimiter(boundary));
  }

  /** A file attachment whose path does not exist leaves only its delimiter line, an empty part. */
  lemma MissingFileLeavesDelimiter(boundary: string, path: string, name: string, env: Env)
    requires path !in env.files
    ensures AttachmentPart(boundary, FileAttachment(path, name), env) == Delimiter(boundary)
  {
  }

  /** A string attachment is always sent, base64-encoded. */
  lemma StringAttachmentSent(boundary: string, content: string, filename: string, env: Env)
    ensures AttachmentPart(boundary, StringAttachment(content, filename), env)
      == Delimiter(boundary) + Payload(filename, env.encode(content))
  {
  }

  // ----------------------------------------------------------------- send

  /** The body `send` passes to `mail()`. */
  function OutgoingBody(st: MailerState, env: Env): string {
    if |st.attachments| > 0 then MultipartBody(Boundary(env), st, env) else st.body
  }

  /** The calls `send` makes when no delivery fails early, one per recipient in order. */
  function Calls(st: MailerState, from: Address, env: Env): (r: seq<MailCall>)
    ensures |r| == |st.to|
  {
    CallsTo(st.to, st.subject, OutgoingBody(st, env), Join(HeaderList(st, from, env), "\r\n"))
  }

  function CallsTo(recipients: seq<Address>, subject: string, body: string, headers: string): (r: seq<MailCall>)
    ensures |r| == |recipients|
  {
    seq(|recipients|, i requires 0 <= i < |recipients| => MailCall(FormatAddress(recipients[i]), subject, body, headers))
  }

  /** The first call `mail()` rejects. */
  function FirstRejected(calls: seq<MailCall>, mail: MailCall -> bool): (r: Option<nat>)
    ensures r.Some? ==> r.value < |calls| && !mail(calls[r.value]) && forall j :: 0 <= j < r.value ==> mail(calls[j])
    ensures r.None? ==> forall j :: 0 <= j < |calls| ==> mail(calls[j])
    decreases |calls|
  {
    if |calls| == 0 then None
    else if !mail(calls[0]) then Some(0)
    else match FirstRejected(calls[1..], mail)
      case None => None
      case Some(i) => Some(i + 1)
  }

  const FailedPrefix := "Failed to send email to: "

  /** `send`: its outcome and the `mail()` calls it makes. */
  function SendSpec(st: MailerState, env: Env): (SendResult, seq<MailCall>) {
    match SendCheck(st)
    case Some(message) => (if st.exceptions then Raised(message) else Returned(false), [])
    case None => Deliver(Calls(st, st.from.value, env), st.exceptions, env.mail)
  }

  /** The delivery loop of `send` over the prepared calls. */
  function Deliver(calls: seq<MailCall>, exceptions: bool, mail: MailCall -> bool): (SendResult, seq<MailCall>) {
    match FirstRejected(calls, mail)
    case None => (Returned(true), calls)
    case Some(k) =>
      if exceptions then (Raised(FailedPrefix + calls[k].to), calls[..k + 1])
      else (Returned(false), calls)
  }

  /** The delivery loop as written: one `mail()` per recipient; with exceptions on, the first failure throws. */
  method DeliverAll(recipients: seq<Address>, subject: string, body: string, headers: string,
                    exceptions: bool, mail: MailCall -> bool)
    returns (result: SendResult, calls: seq<MailCall>)
    ensures (result, calls) == Deliver(CallsTo(recipients, subject, body, headers), exceptions, mail)
  {
    ghost var all := CallsTo(recipients, subject, body, headers);
    calls := [];
    var success := true;
    for i := 0 to |recipients|
      invariant calls == all[..i]
      invariant success <==> forall j :: 0 <= j < i ==> mail(all[j])
      invariant exceptions ==> success
    {
      var to := FormatAddress(recipients[i]);
      var call := MailCall(to, subject, body, headers);
      assert call == all[i];
      assert all[..i + 1] == all[..i] + [all[i]];
      calls := calls + [call];
      if !mail(call) {
        success := false;
        if exceptions {
          FirstRejectedAt(all, mail, i);
          result := Raised(FailedPrefix + to);
          return;
        }
      }
    }
    assert all[..|recipients|] == all;
    if !success {
      ghost var k :| 0 <= k < |all| && !mail(all[k]);
    }
    result := Returned(success);
  }

  lemma {:induction false} FirstRejectedAt(calls: seq<MailCall>, mail: MailCall -> bool, k: nat)
    requires k < |calls| && !mail(calls[k]) && forall j :: 0 <= j < k ==> mail(calls[j])
    ensures FirstRejected(calls, mail) == Some(k)
    decreases k
  {
    if k > 0 {
      assert calls[1..][k - 1] == calls[k];
      FirstRejectedAt(calls[1..], mail, k - 1);
    }
  }

  /**
   * Without exceptions, a failed check or delivery only makes `send` return
   * false, and every recipient is tried; with exceptions, `send` throws the
   * failed check's message, or stops at the first rejected recipient.
   */
  lemma SendOutcomes(st: MailerState, env: Env)
    ensures SendCheck(st).Some? ==> SendSpec(st, env).1 == []
    ensures SendCheck(st).Some? ==> SendSpec(st, env).0 == (if st.exceptions then Raised(SendCheck(st).value) else Returned(false))
    ensures SendCheck(st).None? && !st.exceptions ==>
      SendSpec(st, env).1 == Calls(st, st.from.value, env)
      && (SendSpec(st, env).0 == Returned(true) <==> forall c :: c in Calls(st, st.from.value, env) ==> env.mail(c))
    ensures SendCheck(st).None? && st.exceptions && SendSpec(st, env).0.Raised? ==>
      var calls := SendSpec(st, env).1;
      |calls| > 0 && !env.mail(calls[|calls| - 1]) && forall j :: 0 <= j < |calls| - 1 ==> env.mail(calls[j])
  {
    var check := SendCheck(st);
    if check.None? {
      var calls := Calls(st, st.from.value, env);
      assert SendSpec(st, env) == Deliver(calls, st.exceptions, env.mail);
      DeliverOutcomes(calls, st.exceptions, env.mail);
    } else {
      assert SendSpec(st, env) == (if st.exceptions then Raised(check.value) else Returned(false), []);
    }
  }

  /** The delivery loop's outcomes over any list of prepared calls. */
  lemma DeliverOutcomes(calls: seq<MailCall>, exceptions: bool, mail: MailCall -> bool)
    ensures !exceptions ==>
      Deliver(calls, exceptions, mail).1 == calls
      && (Deliver(calls, exceptions, mail).0 == Returned(true) <==> forall c :: c in calls ==> mail(c))
    ensures exceptions && Deliver(calls, exceptions, mail).0.Raised? ==>
      var made := Deliver(calls, exceptions, mail).1;
      |made| > 0 && !mail(made[|made| - 1]) && forall j :: 0 <= j < |made| - 1 ==> mail(made[j])
  {
    if !exceptions && Deliver(calls, exceptions, mail).0 == Returned(true) {
      forall c | c in calls ensures mail(c) {
        var i :| 0 <= i < |calls| && calls[i] == c;
      }
    }
  }

  // ----------------------------------------------------------------- the class

  const PrivateFields := {"from", "to", "replyTo", "attachments", "customHeaders", "isHTML", "exceptions"}

  /** The declared public properties: PHP assigns these directly, without `__set`. */
  const PublicFields := {"Host", "SMTPAuth", "Username", "Password", "SMTPSecure", "Port", "Priority"}

  /**
   * `$mail->name = value` on a name the class does not declare public, as
   * written: `__set` assigns `$this->$name`, and property names are
   * case-sensitive, so only "subject" and "body" reach the fields `send`
   * reads; any other name, "Subject" and "Body" included, becomes a new
   * dynamic property.
   */
  function AssignAsWritten(st: MailerState, name: string, value: string): (r: MailerState)
    requires name !in PrivateFields && name !in PublicFields
    ensures name != "subject" ==> r.subject == st.subject
  {
    if name == "subject" then st.(subject := value)
    else if name == "body" then st.(body := value)
    else st.(dynamicProps := st.dynamicProps[name := value])
  }

  /** The assignment callers evidently mean: "Subject" and "Body" set the subject and the body. */
  function AssignIntended(st: MailerState, name: string, value: string): (r: MailerState)
    requires name !in PrivateFields && name !in PublicFields
    ensures (name == "Subject" || name == "subject") ==> r.subject == value
    ensures (name == "Body" || name == "body") ==> r.body == value
  {
    if name == "subject" || name == "Subject" then st.(subject := value)
    else if name == "body" || name == "Body" then st.(body := value)
    else st.(dynamicProps := st.dynamicProps[name := value])
  }

  /**
   * As written, `$mail->Subject = s` leaves the subject empty, so a message
   * with a sender and a recipient still fails "Subject is required" and no
   * mail is sent, whatever `s` is.
   */
  lemma SubjectAssignmentLost(st: MailerState, s: string, env: Env)
    requires st.subject == ""
    requires st.from.Some? && !IsEmptyString(st.from.value.address) && |st.to| > 0
    ensures SendCheck(AssignAsWritten(st, "Subject", s)) == Some(NoSubject)
    ensures SendSpec(AssignAsWritten(st, "Subject", s), env).1 == []
  {
    assert "Subject" != "subject" by { assert "Subject"[0] == 'S'; }
    assert "Subject" !in PrivateFields && "Subject" !in PublicFields;
  }

  /** With the intended assignment, a non-empty subject lets a message with a sender and a recipient through. */
  lemma SubjectAssignmentReachesSend(st: MailerState, s: string)
    requires !IsEmptyString(s)
    requires st.from.Some? && !IsEmptyString(st.from.value.address) && |st.to| > 0
    ensures SendCheck(AssignIntended(st, "Subject", s)) == None
  {
    assert "Subject" !in PrivateFields && "Subject" !in PublicFields;
  }

  class PhpMailer {
    var from: Option<Address>
    var to: seq<Address>
    var replyTo: Option<Address>
    var attachments: seq<Attachment>
    var customHeaders: seq<string>
    var isHtml: bool
    var subject: string
    var body: string
    var exceptions: bool
    var priority: int
    var dynamicProps: map<string, string>

    function State(): MailerState
      reads this
    {
      MailerState(from, to, replyTo, attachments, customHeaders, isHtml, subject, body, exceptions, priority, dynamicProps)
    }

    /** `new PHPMailer($exceptions)`: exceptions stay off unless a value is given. */
    constructor (exceptionsArg: Option<bool>)
      ensures State() == MailerState(None, [], None, [], [], false, "", "", exceptionsArg == Some(true), 3, map[])
    {
      from := None;
      to := [];
      replyTo := None;
      attachments := [];
      customHeaders := [];
      isHtml := false;
      subject := "";
      body := "";
      exceptions := if exceptionsArg.Some? then exceptionsArg.value else false;
      priority := 3;
      dynamicProps := map[];
    }

    /** `setFrom` replaces the sender. */
    method SetFrom(address: string, name: string)
      modifies this
      ensures State() == old(State()).(from := Some(Address(address, name)))
    {
      from := Some(Address(address, name));
    }

    /** `addAddress` appends a recipient. */
    method AddAddress(address: string, name: string)
      modifies this
      ensures State() == old(State()).(to := old(to) + [Address(address, name)])
    {
      to := to + [Address(address, name)];
    }

    /** `addReplyTo` replaces the reply address. */
    method AddReplyTo(address: string, name: string)
      modifies this
      ensures State() == old(State()).(replyTo := Some(Address(address, name)))
    {
      replyTo := Some(Address(address, name));
    }

    /** `addAttachment` appends a file attachment; the path is not looked at until `send`. */
    method AddAttachment(path: string, name: string)
      modifies this
      ensures State() == old(State()).(attachments := old(attachments) + [FileAttachment(path, name)])
    {
      attachments := attachments + [FileAttachment(path, name)];
    }

    /** `addStringAttachment` appends an in-memory attachment. */
    method AddStringAttachment(content: string, filename: string)
      modifies this
      ensures State() == old(State()).(attachments := old(attachments) + [StringAttachment(content, filename)])
    {
      attachments := attachments + [StringAttachment(content, filename)];
    }

    /** `addCustomHeader` appends one header line. */
    method AddCustomHeader(name: string, value: Option<string>)
      modifies this
      ensures State() == old(State()).(customHeaders := old(customHeaders) + [CustomHeader(name, value)])
    {
      if value.None? {
        customHeaders := customHeaders + [name];
      } else {
        customHeaders := customHeaders + [name + ": " + value.value];
      }
    }

    /** `isHTML`. */
    method IsHtml(flag: bool)
      modifies this
      ensures State() == old(State()).(isHtml := flag)
    {
      isHtml := flag;
    }

    /** Assigning the public `Priority` property. */
    method SetPriority(p: int)
      modifies this
      ensures State() == old(State()).(priority := p)
    {
      priority := p;
    }

    /** Assigning a property the class does not declare public, through `__set`. */
    method SetProperty(name: string, value: string)
      requires name !in PrivateFields && name !in PublicFields
      modifies this
      ensures State() == AssignAsWritten(old(State()), name, value)
    {
      if name == "subject" {
        subject := value;
      } else if name == "body" {
        body := value;
      } else {
        dynamicProps := dynamicProps[name := value];
      }
    }

    /** `send` as written: checks, headers step by step, then one `mail()` per recipient. */
    method Send(env: Env) returns (result: SendResult, calls: seq<MailCall>)
      ensures (result, calls) == SendSpec(State(), env)
    {
      calls := [];
      if from.None? || IsEmptyString(from.value.address) {
        result := if exceptions then Raised(NoFrom) else Returned(false);
        return;
      }
      if |to| == 0 {
        result := if exceptions then Raised(NoRecipient) else Returned(false);
        return;
      }
      if IsEmptyString(subject) {
        result := if exceptions then Raised(NoSubject) else Returned(false);
        return;
      }
      assert SendCheck(State()).None?;
      var headers := AssembleHeaders(State(), from.value);
      var outgoing := body;
      if |attachments| > 0 {
        var boundary := "boundary_" + env.uniqid;
        headers := headers + [MultipartHeader(boundary)];
        outgoing := CreateMultipartBody(boundary, State(), env);
      }
      assert headers == HeaderList(State(), from.value, env);
      assert outgoing == OutgoingBody(State(), env);
      result, calls := DeliverAll(to, subject, outgoing, Join(headers, "\r\n"), exceptions, env.mail);
    }
  }
}
