/** The Resend variant of the upload route. The provider answers with an `error` payload (or
    throws); attachments are sent as base name plus base64 content, read from the upload
    directory, without content ids. */
module RootServer {
  import opened Wrappers
  import opened Text
  import opened Upload
  import opened Application
  import opened Cleanup
  import opened Http

  const Messages := FilterMessages("La photo doit être une image", "Les documents doivent être en PDF")

  const Sender := "Recrutement ICS-benin <onboarding@resend.dev>"
  const DefaultRecipient := "icsbenin01@gmail.com"

  /** `process.env.EMAIL_TO || 'icsbenin01@gmail.com'`: an unset or empty variable falls back
      to the default address. */
  function Recipient(emailTo: Option<string>): (to: string)
    ensures to != ""
    ensures emailTo.Some? && emailTo.value != "" ==> to == emailTo.value
    ensures emailTo.None? || emailTo.value == "" ==> to == DefaultRecipient
  {
    if emailTo.Some? && emailTo.value != "" then emailTo.value else DefaultRecipient
  }

  /** One entry of `attachmentsForResend`. */
  datatype ResendAttachment = ResendAttachment(filename: string, content: string)

  /** `attachmentsForResend`: each attachment becomes the base name of its stored path and the
      base64 of the file. `fs.readFileSync` throws (None) when a file is not in the directory
      `onDisk`; `base64` stands for the encoded contents of a path. */
  function ForResend(attachments: seq<Attachment>, onDisk: set<string>, base64: string -> string)
    : (r: Option<seq<ResendAttachment>>)
    ensures r.Some? <==> forall i :: 0 <= i < |attachments| ==> attachments[i].path in onDisk
    ensures r.Some? ==> |r.value| == |attachments|
    ensures r.Some? ==> forall i :: 0 <= i < |attachments| ==>
      r.value[i] == ResendAttachment(Basename(attachments[i].path), base64(attachments[i].path))
  {
    if forall i :: 0 <= i < |attachments| ==> attachments[i].path in onDisk then
      Some(seq(|attachments|, i requires 0 <= i < |attachments| =>
        ResendAttachment(Basename(attachments[i].path), base64(attachments[i].path))))
    else None
  }

  /** The message handed to `resend.emails.send`. */
  datatype Email = Email(from: string, to: string, subject: string, html: Notification,
                         attachments: seq<ResendAttachment>)

  /** What `resend.emails.send` does: resolve with `{data, error}` (only `error` matters here,
      None when it is null), or throw. */
  datatype Reply = Reply(error: Option<string>) | Threw(message: string)

  /** How the route ends, and the message handed to the provider if it got that far. */
  datatype Handling = Handling(outcome: Outcome, email: Option<Email>)

  /** The route handler's decisions. `uploaded` is `req.files` (None when undefined) and
      `onDisk` the upload directory when the files are read back. */
  function Handle(body: map<string, string>, uploaded: Option<UploadedFiles>, emailTo: Option<string>,
                  sentAt: string, onDisk: set<string>, base64: string -> string,
                  send: Email -> Reply): (h: Handling)
    ensures h.outcome == MissingFields <==> !HasRequiredFields(ReadApplicant(body))
    ensures h.email.Some? <==>
      HasRequiredFields(ReadApplicant(body)) && uploaded.Some? &&
      ForResend(Attachments(ReadApplicant(body), uploaded.value), onDisk, base64).Some?
    ensures h.outcome == SendFailed <==> h.email.Some? && send(h.email.value).Reply? && send(h.email.value).error.Some?
    ensures h.outcome == Delivered <==> h.email.Some? && send(h.email.value) == Reply(None)
    ensures !h.outcome.UploadRejected?
    ensures h.email.Some? ==>
      var m, a := h.email.value, ReadApplicant(body);
      && m.from == Sender
      && m.to == Recipient(emailTo)
      && m.subject == Subject(a)
      && Some(m.attachments) == ForResend(Attachments(a, uploaded.value), onDisk, base64)
      && m.html == ComposeNotification(a, if |uploaded.value.photo| > 0 then Some(PhotoCid) else None, sentAt)
      && (m.html.photoCid.Some? <==> |uploaded.value.photo| > 0)
  {
    var a := ReadApplicant(body);
    if !HasRequiredFields(a) then Handling(MissingFields, None)
    else if uploaded.None? then Handling(Fault, None)
    else
      var attachments := Attachments(a, uploaded.value);
      var photoCid := if |uploaded.value.photo| > 0 then Some(PhotoCid) else None;
      var html := ComposeNotification(a, photoCid, sentAt);
      var forResend := ForResend(attachments, onDisk, base64);
      if forResend.None? then Handling(Fault, None)
      else
        var email := Email(Sender, Recipient(emailTo), Subject(a), html, forResend.value);
        match send(email)
        case Reply(error) => Handling(if error.Some? then SendFailed else Delivered, Some(email))
        case Threw(_) => Handling(Fault, Some(email))
  }

  /** The route handler. Every path runs the cleanup exactly once before it answers; the files
      are read back before that. */
  method HandleApplication(dir: UploadDir, body: map<string, string>, uploaded: Option<UploadedFiles>,
                           emailTo: Option<string>, sentAt: string, base64: string -> string,
                           send: Email -> Reply, denied: set<string>)
    returns (resp: Response, email: Option<Email>)
    modifies dir
    ensures resp == Respond(Handle(body, uploaded, emailTo, sentAt, old(dir.files), base64, send).outcome)
    ensures email == Handle(body, uploaded, emailTo, sentAt, old(dir.files), base64, send).email
    ensures dir.files == AfterCleanup(old(dir.files), uploaded, denied).remaining
    ensures dir.warnings == old(dir.warnings) + AfterCleanup(old(dir.files), uploaded, denied).failed
  {
    ghost var h := Handle(body, uploaded, emailTo, sentAt, dir.files, base64, send);
    var a := ReadApplicant(body);
    if !HasRequiredFields(a) {
      dir.CleanupFiles(uploaded, denied);
      return Respond(MissingFields), None;
    }
    if uploaded.None? {
      // `req.files['photo']` throws; the catch block cleans up and answers 500
      dir.CleanupFiles(uploaded, denied);
      return Respond(Fault), None;
    }
    var attachments, photoCid := BuildAttachments(a, uploaded.value);
    var html := ComposeNotification(a, photoCid, sentAt);
    var forResend := ForResend(attachments, dir.files, base64);
    assert forResend.None? ==> h == Handling(Fault, None);
    if forResend.None? {
      // `fs.readFileSync` throws; the catch block cleans up and answers 500
      dir.CleanupFiles(uploaded, denied);
      return Respond(Fault), None;
    }
    var message := Email(Sender, Recipient(emailTo), Subject(a), html, forResend.value);
    email := Some(message);
    var reply := send(message);
    assert h.email == email;
    dir.CleanupFiles(uploaded, denied);
    if reply.Threw? {
      resp := Respond(Fault);
    } else if reply.error.Some? {
      resp := Respond(SendFailed);
    } else {
      resp := Respond(Delivered);
    }
  }

  /** The route answers 400 "Champs obligatoires manquants", without mailing anything, exactly
      when `nom`, `prenom` or `metier` is absent or whitespace only. */
  lemma MissingFieldsAnswer(body: map<string, string>, uploaded: Option<UploadedFiles>,
                            emailTo: Option<string>, sentAt: string, onDisk: set<string>,
                            base64: string -> string, send: Email -> Reply)
    ensures var h := Handle(body, uploaded, emailTo, sentAt, onDisk, base64, send);
      (Respond(h.outcome) == Response(400, false, MissingFieldsMessage) && h.email.None?)
      <==> Missing(body, "nom") || Missing(body, "prenom") || Missing(body, "metier")
  {
    RequiredFieldsCheck(body);
  }

  /** An error payload gives 500 "Échec envoi email", a resolved send without error gives 200,
      and a throw gives 500 "Erreur serveur". */
  lemma ProviderReplies(body: map<string, string>, uploaded: Option<UploadedFiles>,
                        emailTo: Option<string>, sentAt: string, onDisk: set<string>,
                        base64: string -> string, send: Email -> Reply)
    requires Handle(body, uploaded, emailTo, sentAt, onDisk, base64, send).email.Some?
    ensures var h := Handle(body, uploaded, emailTo, sentAt, onDisk, base64, send);
      var r := Respond(h.outcome);
      match send(h.email.value)
      case Reply(Some(_)) => r == Response(500, false, SendFailedMessage)
      case Reply(None) => r == Response(200, true, DeliveredMessage)
      case Threw(_) => r == Response(500, false, FaultMessage)
  {
  }

  /** When the files are stored under generated names, the provider receives, in the order of
      `req.files`, each file under its stored name rather than the name derived from the
      applicant, and its contents. */
  lemma ResendUsesStoredNames(a: Applicant, files: UploadedFiles, onDisk: set<string>,
                              base64: string -> string)
    requires WithinLimits(files)
    requires forall f :: f in AllFiles(files) ==> Basename(f.path) == f.filename
    requires ForResend(Attachments(a, files), onDisk, base64).Some?
    ensures var sent, all := ForResend(Attachments(a, files), onDisk, base64).value, AllFiles(files);
      |sent| == |all| &&
      forall i :: 0 <= i < |all| ==> sent[i] == ResendAttachment(all[i].filename, base64(all[i].path))
  {
    var attachments, all := Attachments(a, files), AllFiles(files);
    AttachmentsCarryEveryUpload(a, files);
    forall i | 0 <= i < |all| ensures attachments[i].path == all[i].path {
      assert AttachmentPaths(attachments)[i] == PathsOf(all)[i];
    }
  }
}
