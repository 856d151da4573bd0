/** The nodemailer variant of the upload route. The mailer is a collaborator that either accepts
    the message or throws; attachments are passed by path, the photo with its content id. */
module IcsBenin {
  import opened Wrappers
  import opened Upload
  import opened Application
  import opened Cleanup
  import opened Http

  const Messages := FilterMessages("La photo doit être une image (jpg, png, etc.)",
                                   "Les documents doivent être en format PDF")

  const Recipient := "codemaxia@gmail.com"

  /** The sender, `"Recrutement ICS-benin" <${process.env.EMAIL_USER}>`; an unset variable
      renders as `undefined`. */
  function Sender(emailUser: Option<string>): string {
    "\"Recrutement ICS-benin\" <" + (if emailUser.Some? then emailUser.value else "undefined") + ">"
  }

  /** `mailOptions`. */
  datatype MailOptions = MailOptions(from: string, to: string, subject: string,
                                     html: Notification, attachments: seq<Attachment>)

  /** What `transporter.sendMail` does: resolve, or reject with an error. */
  datatype Delivery = Sent | Threw(message: string)

  /** How the route ends, and the message handed to the mailer if it got that far. */
  datatype Handling = Handling(outcome: Outcome, mail: Option<MailOptions>)

  function MailFor(a: Applicant, files: UploadedFiles, emailUser: Option<string>, sentAt: string): MailOptions {
    var photoCid := if |files.photo| > 0 then Some(PhotoCid) else None;
    MailOptions(Sender(emailUser), Recipient, Subject(a),
                ComposeNotification(a, photoCid, sentAt), Attachments(a, files))
  }

  /** The route handler's decisions. `uploaded` is `req.files`, undefined (None) when the request
      was not multipart; reading a field of it then throws. */
  function Handle(body: map<string, string>, uploaded: Option<UploadedFiles>, emailUser: Option<string>,
                  sentAt: string, send: MailOptions -> Delivery): (h: Handling)
    ensures h.outcome == MissingFields <==> !HasRequiredFields(ReadApplicant(body))
    ensures h.mail.Some? <==> HasRequiredFields(ReadApplicant(body)) && uploaded.Some?
    ensures h.outcome == Delivered <==> h.mail.Some? && send(h.mail.value) == Sent
    ensures h.outcome == MissingFields || h.outcome == Fault || h.outcome == Delivered
    ensures h.mail.Some? ==>
      var m, a := h.mail.value, ReadApplicant(body);
      && m.from == Sender(emailUser)
      && m.to == Recipient
      && m.html == ComposeNotification(a, if |uploaded.value.photo| > 0 then Some(PhotoCid) else None, sentAt)
      && m.subject == Subject(a)
      && m.attachments == Attachments(a, uploaded.value)
      && (m.html.photoCid.Some? <==> |uploaded.value.photo| > 0)
  {
    var a := ReadApplicant(body);
    if !HasRequiredFields(a) then Handling(MissingFields, None)
    else if uploaded.None? then Handling(Fault, None)
    else
      var mail := MailFor(a, uploaded.value, emailUser, sentAt);
      Handling(if send(mail) == Sent then Delivered else Fault, Some(mail))
  }

  /** The route handler. Every path runs the cleanup exactly once before it answers. */
  method HandleApplication(dir: UploadDir, body: map<string, string>, uploaded: Option<UploadedFiles>,
                           emailUser: Option<string>, sentAt: string, send: MailOptions -> Delivery,
                           denied: set<string>)
    returns (resp: Response, mail: Option<MailOptions>)
    modifies dir
    ensures resp == Respond(Handle(body, uploaded, emailUser, sentAt, send).outcome)
    ensures mail == Handle(body, uploaded, emailUser, sentAt, send).mail
    ensures dir.files == AfterCleanup(old(dir.files), uploaded, denied).remaining
    ensures dir.warnings == old(dir.warnings) + AfterCleanup(old(dir.files), uploaded, denied).failed
  {
    var a := ReadApplicant(body);
    if !HasRequiredFields(a) {
      dir.CleanupFiles(uploaded, denied);
      return Respond(MissingFields), None;
    }
    if uploaded.None? {
      // `req.files['photo']` throws; the catch block cleans up and answers 500
      dir.CleanupFiles(uploaded, denied);
      return Respond(Fault), None;
    }
    var attachments, photoCid := BuildAttachments(a, uploaded.value);
    var html := ComposeNotification(a, photoCid, sentAt);
    var options := MailOptions(Sender(emailUser), Recipient, Subject(a), html, attachments);
    mail := Some(options);
    var delivery := send(options);
    dir.CleanupFiles(uploaded, denied);
    if delivery == Sent {
      resp := Respond(Delivered);
    } else {
      resp := Respond(Fault);
    }
  }

  /** The route answers 400 "Champs obligatoires manquants", without mailing anything, exactly
      when `nom`, `prenom` or `metier` is absent or whitespace only. */
  lemma MissingFieldsAnswer(body: map<string, string>, uploaded: Option<UploadedFiles>,
                            emailUser: Option<string>, sentAt: string, send: MailOptions -> Delivery)
    ensures var h := Handle(body, uploaded, emailUser, sentAt, send);
      (Respond(h.outcome) == Response(400, false, MissingFieldsMessage) && h.mail.None?)
      <==> Missing(body, "nom") || Missing(body, "prenom") || Missing(body, "metier")
  {
    RequiredFieldsCheck(body);
  }

  /** Once the message is built, a resolved `sendMail` gives 200 "Candidature envoyée !" and a
      rejected one 500 "Erreur serveur". */
  lemma MailerReplies(body: map<string, string>, uploaded: UploadedFiles, emailUser: Option<string>,
                      sentAt: string, send: MailOptions -> Delivery)
    requires HasRequiredFields(ReadApplicant(body))
    ensures var h := Handle(body, Some(uploaded), emailUser, sentAt, send);
      var r := Respond(h.outcome);
      h.mail.Some? &&
      match send(h.mail.value)
      case Sent => r == Response(200, true, DeliveredMessage)
      case Threw(_) => r == Response(500, false, FaultMessage)
  {
  }

  /** A message that is sent carries every stored file, in the order of `req.files`, and the
      inline image refers to the first attachment's content id. */
  lemma MailCarriesEveryUpload(body: map<string, string>, uploaded: UploadedFiles,
                               emailUser: Option<string>, sentAt: string, send: MailOptions -> Delivery)
    requires WithinLimits(uploaded)
    requires HasRequiredFields(ReadApplicant(body))
    ensures var m := Handle(body, Some(uploaded), emailUser, sentAt, send).mail.value;
      && AttachmentPaths(m.attachments) == PathsOf(AllFiles(uploaded))
      && (m.html.photoCid.Some? <==> |m.attachments| > 0 && m.attachments[0].cid.Some?)
      && (m.html.photoCid.Some? ==> m.attachments[0].cid == m.html.photoCid)
  {
    var a := ReadApplicant(body);
    AttachmentsCarryEveryUpload(a, uploaded);
    AttachmentsLayout(a, uploaded);
  }
}
