/** The request-handling core both server variants share: reading the applicant's text fields,
    the required-field check, the attachment list, the two phone-number forms, the structure of
    the notification email and its subject. */
module Application {
  import opened Wrappers
  import opened Text
  import opened Upload

  /** The text fields of the form (`req.body`). */
  datatype Applicant = Applicant(nom: string, prenom: string, nationalite: string,
                                 situationMatrimoniale: string, age: string,
                                 telephone: string, metier: string)

  /** A body field, `''` when the key is absent (the destructuring default). */
  function Field(body: map<string, string>, key: string): string {
    if key in body then body[key] else ""
  }

  function ReadApplicant(body: map<string, string>): Applicant {
    Applicant(Field(body, "nom"), Field(body, "prenom"), Field(body, "nationalite"),
              Field(body, "situation_matrimoniale"), Field(body, "age"),
              Field(body, "telephone"), Field(body, "metier"))
  }

  /** The validation guard: `nom`, `prenom` and `metier` all non-empty once trimmed. */
  predicate HasRequiredFields(a: Applicant) {
    !IsBlank(a.nom) && !IsBlank(a.prenom) && !IsBlank(a.metier)
  }

  /** A required key counts as missing when the body lacks it or holds only whitespace for it. */
  predicate Missing(body: map<string, string>, key: string) {
    key !in body || AllSpace(body[key])
  }

  /** The guard fails exactly when one of the three required keys is absent or blank. */
  lemma RequiredFieldsCheck(body: map<string, string>)
    ensures !HasRequiredFields(ReadApplicant(body))
        <==> Missing(body, "nom") || Missing(body, "prenom") || Missing(body, "metier")
  {
    var a := ReadApplicant(body);
    assert IsBlank(a.nom) <==> Missing(body, "nom");
    assert IsBlank(a.prenom) <==> Missing(body, "prenom");
    assert IsBlank(a.metier) <==> Missing(body, "metier");
  }

  const PhotoCid := "photo@application"

  /** One entry of the `attachments` array handed to the mailer. */
  datatype Attachment = Attachment(filename: string, path: string, cid: Option<string>)

  function PhotoAttachmentName(a: Applicant, photo: StoredFile): string {
    "photo_" + a.prenom + "_" + a.nom + ExtName(photo.originalname)
  }

  function CvAttachmentName(a: Applicant): string {
    "cv_" + a.prenom + "_" + a.nom + ".pdf"
  }

  /** The name of the `n`-th certificate, counting from 1. */
  function CertificateAttachmentName(a: Applicant, n: nat): string {
    "certificat_" + Decimal(n) + "_" + a.prenom + "_" + a.nom + ".pdf"
  }

  function PhotoEntries(a: Applicant, files: UploadedFiles): seq<Attachment> {
    if |files.photo| > 0 then
      [Attachment(PhotoAttachmentName(a, files.photo[0]), files.photo[0].path, Some(PhotoCid))]
    else []
  }

  function CvEntries(a: Applicant, files: UploadedFiles): seq<Attachment> {
    if |files.cv| > 0 then [Attachment(CvAttachmentName(a), files.cv[0].path, None)] else []
  }

  function CertificateEntries(a: Applicant, certificats: seq<StoredFile>): seq<Attachment> {
    seq(|certificats|, i requires 0 <= i < |certificats| =>
      Attachment(CertificateAttachmentName(a, i + 1), certificats[i].path, None))
  }

  /** The attachment list: the first photo, then the first CV, then every certificate. */
  function Attachments(a: Applicant, files: UploadedFiles): seq<Attachment> {
    PhotoEntries(a, files) + CvEntries(a, files) + CertificateEntries(a, files.certificats)
  }

  /** Builds the attachment list the way the handlers do, pushing onto an initially empty array,
      and sets the photo's content id when a photo was uploaded. */
  method BuildAttachments(a: Applicant, files: UploadedFiles)
    returns (attachments: seq<Attachment>, photoCid: Option<string>)
    ensures attachments == Attachments(a, files)
    ensures photoCid == if |files.photo| > 0 then Some(PhotoCid) else None
  {
    attachments := [];
    photoCid := None;
    if |files.photo| > 0 {
      var photoFile := files.photo[0];
      photoCid := Some(PhotoCid);
      attachments := attachments + [Attachment(PhotoAttachmentName(a, photoFile), photoFile.path, photoCid)];
    }
    if |files.cv| > 0 {
      var cvFile := files.cv[0];
      attachments := attachments + [Attachment(CvAttachmentName(a), cvFile.path, None)];
    }
    ghost var head := attachments;
    var index := 0;
    while index < |files.certificats|
      invariant 0 <= index <= |files.certificats|
      invariant attachments == head + CertificateEntries(a, files.certificats[..index])
    {
      var file := files.certificats[index];
      attachments := attachments + [Attachment(CertificateAttachmentName(a, index + 1), file.path, None)];
      index := index + 1;
    }
    assert files.certificats[..index] == files.certificats;
  }

  function Count(present: bool): nat {
    if present then 1 else 0
  }

  /** The layout of the list: the photo first with its content id, then the CV, then the
      certificates numbered from 1 in upload order; only the photo carries a content id. */
  lemma AttachmentsLayout(a: Applicant, files: UploadedFiles)
    ensures var r, p, c := Attachments(a, files), |files.photo| > 0, |files.cv| > 0;
      && |r| == Count(p) + Count(c) + |files.certificats|
      && (p ==> r[0] == Attachment(PhotoAttachmentName(a, files.photo[0]), files.photo[0].path, Some(PhotoCid)))
      && (c ==> r[Count(p)] == Attachment(CvAttachmentName(a), files.cv[0].path, None))
      && (forall k :: 0 <= k < |files.certificats| ==>
            r[Count(p) + Count(c) + k]
            == Attachment(CertificateAttachmentName(a, k + 1), files.certificats[k].path, None))
      && (forall i :: 0 <= i < |r| ==> (r[i].cid.Some? <==> p && i == 0))
  {
  }

  function AttachmentPaths(attachments: seq<Attachment>): (ps: seq<string>)
    ensures |ps| == |attachments| && forall i :: 0 <= i < |ps| ==> ps[i] == attachments[i].path
  {
    seq(|attachments|, i requires 0 <= i < |attachments| => attachments[i].path)
  }

  lemma AttachmentPathsAppend(x: seq<Attachment>, y: seq<Attachment>)
    ensures AttachmentPaths(x + y) == AttachmentPaths(x) + AttachmentPaths(y)
  {
  }

  lemma PathsOfAppend(x: seq<StoredFile>, y: seq<StoredFile>)
    ensures PathsOf(x + y) == PathsOf(x) + PathsOf(y)
  {
  }

  /** Within multer's limits every stored file is attached, in the order of `req.files`. */
  lemma AttachmentsCarryEveryUpload(a: Applicant, files: UploadedFiles)
    requires WithinLimits(files)
    ensures AttachmentPaths(Attachments(a, files)) == PathsOf(AllFiles(files))
  {
    var photo, cv := PhotoEntries(a, files), CvEntries(a, files);
    var certs := CertificateEntries(a, files.certificats);
    AttachmentPathsAppend(photo, cv);
    AttachmentPathsAppend(photo + cv, certs);
    PathsOfAppend(files.photo, files.cv);
    PathsOfAppend(files.photo + files.cv, files.certificats);
    assert AttachmentPaths(photo) == PathsOf(files.photo);
    assert AttachmentPaths(cv) == PathsOf(files.cv);
    assert AttachmentPaths(certs) == PathsOf(files.certificats);
  }

  /** Certificates are numbered distinctly, so no two of them get the same name. */
  lemma CertificateNamesDistinct(a: Applicant, m: nat, n: nat)
    requires CertificateAttachmentName(a, m) == CertificateAttachmentName(a, n)
    ensures m == n
  {
    var rest := a.prenom + "_" + a.nom + ".pdf";
    CertificateNameSplits(a, m);
    CertificateNameSplits(a, n);
    SplitAtFirst("certificat", Decimal(m) + ['_'] + rest, "certificat", Decimal(n) + ['_'] + rest, '_');
    DigitsLack(Decimal(m), '_');
    DigitsLack(Decimal(n), '_');
    SplitAtFirst(Decimal(m), rest, Decimal(n), rest, '_');
    DecimalInjective(m, n);
  }

  lemma CertificateNameSplits(a: Applicant, n: nat)
    ensures CertificateAttachmentName(a, n)
         == "certificat" + ['_'] + (Decimal(n) + ['_'] + (a.prenom + "_" + a.nom + ".pdf"))
  {
  }

  predicate StartsWithPlus(s: string) {
    |s| > 0 && s[0] == '+'
  }

  /** `cleanPhone`: `telephone ? telephone.replace(/\D/g, '') : ''`. The guard changes nothing:
      the empty string has no digits either. */
  function CleanPhone(telephone: string): (r: string)
    ensures r == DigitsOnly(telephone)
    ensures AllDigits(r)
  {
    if telephone == "" then "" else DigitsOnly(telephone)
  }

  /** `fullInternationalNumber`: the phone verbatim when it starts with '+', otherwise '+' and its
      digits, otherwise (no digits at all) the empty string. */
  function InternationalNumber(telephone: string): (r: string)
    ensures StartsWithPlus(telephone) ==> r == telephone
    ensures !StartsWithPlus(telephone) ==>
      (r == "" <==> CleanPhone(telephone) == "") &&
      (r != "" ==> r[0] == '+' && AllDigits(r[1..]) && r[1..] == CleanPhone(telephone))
    ensures r == "" || r[0] == '+'
  {
    if StartsWithPlus(telephone) then telephone
    else
      var digits := CleanPhone(telephone);
      if digits != "" then "+" + digits else ""
  }

  const Unspecified := "Non spécifié"
  const UnspecifiedFeminine := "Non spécifiée"

  /** `value || placeholder` on a string: the placeholder replaces only the empty string. */
  function OrPlaceholder(value: string, placeholder: string): string {
    if value == "" then placeholder else value
  }

  /** The call-to-action block: the number behind the `tel:` link (before URI encoding) and the
      number in the `https://wa.me/` link. */
  datatype CallActions = CallActions(dialNumber: string, whatsAppNumber: string)

  /** The parts of the HTML body that depend on the request; styling is not modelled.
      `age` is the text shown with its " ans" suffix; `photoCid` is the content id an
      `<img src="cid:...">` references, when the image is there. */
  datatype Notification = Notification(fullName: string, nationalite: string, situation: string,
                                       age: string, telephone: string, poste: string,
                                       photoCid: Option<string>, actions: Option<CallActions>,
                                       sentAt: string)

  /** The HTML body, given the photo's content id (if any) and the `toLocaleString('fr-FR')`
      rendering of the send time. */
  function ComposeNotification(a: Applicant, photoCid: Option<string>, sentAt: string): (n: Notification)
    ensures n.photoCid == photoCid
    ensures n.sentAt == sentAt
    ensures n.actions.Some? <==> !AllSpace(a.telephone)
    ensures n.actions.Some? ==>
      AllDigits(n.actions.value.whatsAppNumber) &&
      n.actions.value.whatsAppNumber == DigitsOnly(a.telephone) &&
      n.actions.value.dialNumber == InternationalNumber(a.telephone)
    ensures n.fullName == a.prenom + " " + a.nom && n.nationalite == a.nationalite
    ensures a.situationMatrimoniale == "" ==> n.situation == UnspecifiedFeminine
    ensures a.situationMatrimoniale != "" ==> n.situation == a.situationMatrimoniale
    ensures n.age == (if a.age == "" then Unspecified else a.age) + " ans"
    ensures a.telephone == "" ==> n.telephone == Unspecified
    ensures a.telephone != "" ==> n.telephone == a.telephone
    ensures a.metier == "" ==> n.poste == Unspecified
    ensures a.metier != "" ==> n.poste == a.metier
  {
    var actions :=
      if a.telephone != "" && !IsBlank(a.telephone) then
        Some(CallActions(InternationalNumber(a.telephone), CleanPhone(a.telephone)))
      else None;
    Notification(a.prenom + " " + a.nom, a.nationalite,
                 OrPlaceholder(a.situationMatrimoniale, UnspecifiedFeminine),
                 OrPlaceholder(a.age, Unspecified) + " ans",
                 OrPlaceholder(a.telephone, Unspecified),
                 OrPlaceholder(a.metier, Unspecified),
                 photoCid, actions, sentAt)
  }

  const SubjectPrefix := "\U{1F6A2} Candidature: "

  /** The subject line: the prefix, the first and last names, then the position. */
  function Subject(a: Applicant): (s: string)
    ensures |s| == |SubjectPrefix| + |a.prenom| + 1 + |a.nom| + 3 + |a.metier|
    ensures s[..|SubjectPrefix|] == SubjectPrefix
    ensures s[|SubjectPrefix|..|SubjectPrefix| + |a.prenom|] == a.prenom
    ensures s[|SubjectPrefix| + |a.prenom|..|s| - |a.metier|] == " " + a.nom + " - "
    ensures s[|s| - |a.metier|..] == a.metier
  {
    SubjectPrefix + a.prenom + " " + a.nom + " - " + a.metier
  }
}
