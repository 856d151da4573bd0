# ICS-benin job-application upload — a Dafny model

The repository serves one HTTP route, `POST /api/send-application`. The route takes a
seafarer's application form: text fields plus a photo, a CV and up to five certificates. It
checks the required fields and mails the application, with the files attached, to the
recruiting address. Then it deletes the uploaded files. There are two near-identical
variants:

- `ics-benin/server.js` sends through nodemailer (SMTP). The mailer throws on failure, and
  attachments are passed by path, the photo with a content id.
- `server.js` sends through Resend. The provider answers `{data, error}`, and attachments are
  re-read from disk as base64 under the stored file's base name.

The model pulls out the decision core both variants share. This covers:
- the multer file filter and storage-name callback (module `Upload`);
- the required-field check, attachment list, phone numbers, notification structure and
  subject (module `Application`);
- cleanup of the upload directory (module `Cleanup`, a class whose methods update the set of
  stored paths and the warning log);
- the mapping from outcomes to HTTP responses, and the error middleware (module `Http`).

Each variant's own pieces are in `IcsBenin` and `RootServer`: filter messages, sender and
recipient, the mailer's failure modes, the Resend attachment remap, and the handler itself.
Each handler is a pure function `Handle`, giving the outcome and the message that goes out,
plus an imperative `HandleApplication`. `HandleApplication` is proved to answer as `Handle`
says and to run the cleanup exactly once on every path.

The JavaScript built-ins the core relies on are modelled in `Text`, with their own semantics:
- `String.prototype.trim`, with ECMAScript's whitespace set;
- the `/\D/g` replacement;
- the decimal rendering of `Date.now()` and of `index + 1`;
- Node's POSIX `path.extname` and `path.basename`.

The collaborators are parameters:
- the clock, the uuid and the localised send time;
- the mailer or provider, as a function from the message to its result;
- the contents `readFileSync` returns, as a function of the path;
- the set of paths whose deletion the file system refuses;
- `EMAIL_USER` and `EMAIL_TO`.

Points of the code a reader may not expect:
- the nationality is shown raw, with no placeholder;
- the subject reads `🚢 Candidature: {prenom} {nom} - {metier}`;
- the recipients are the hard-coded `codemaxia@gmail.com` (nodemailer) and `EMAIL_TO` or
  `icsbenin01@gmail.com` (Resend);
- when `req.files` is undefined and the fields are valid, the handler throws and answers 500.
- the Resend email's HTML shows `cid:photo@application`, yet the attachments handed to Resend
  carry no content id (`RootServer.ResendAttachment` has only a name and contents).

## Model

| member | source | states |
|---|---|---|
| `Upload.FileFilter` | ics-benin/server.js:44-52 | `photo` passes iff its MIME type starts with `image/`; `cv` and `certificats` pass iff it is exactly `application/pdf`; any other field passes; a rejection carries the photo message for `photo` and the documents message otherwise |
| `Upload.FirstRejected` | ics-benin/server.js:44-52 | the index of the first part the filter rejects, with every earlier part admitted; -1 iff every part is admitted |
| `Upload.UploadError` | ics-benin/server.js:44-52 | a request's parts raise no error iff the filter admits them all; the error raised is the filter's message for the first rejected part (the photo message if that part is `photo`, the documents message otherwise), with messages each variant words its own way (`IcsBenin.Messages`, `RootServer.Messages`, the latter from server.js:41-49) |
| `Upload.IdPrefix` | ics-benin/server.js:36 | `substring(0, 8)`: the first `min(8, length)` characters of the uuid |
| `Upload.StoredNameLayout` | ics-benin/server.js:34-37 | the stored name is the decimal timestamp and `-`, then the 8-character id prefix, then the original name's extension, with nothing else |
| `Upload.StoredNameKeepsExtension` | ics-benin/server.js:35-36 | for a uuid without `.` or `/`, `path.extname` of the stored name equals that of the original name |
| `Upload.StoredNameDeterminesClockAndId` | server.js:33 | two equal stored names come from the same millisecond and the same 8-character id |
| `Upload.Store` | server.js:29-35 | multer's stored file keeps the field, original name and MIME type, its file name is the generated `StoredName` of the clock, the uuid and the original name, and it lives at the upload directory joined with that name |
| `Upload.StoredPathBasename` | server.js:148 | `path.basename` of a stored file's path is its generated name |
| `Text.Trim` | ics-benin/server.js:98 | the trimmed string neither starts nor ends with whitespace, and is empty iff the input is whitespace only |
| `Text.DigitsOnly` | ics-benin/server.js:141 | the result contains only digits and is no longer than the input; it is the input when that is all digits; it is empty iff the input has no digit |
| `Text.DigitsOnlyAppend` | server.js:108 | removing non-digits distributes over concatenation |
| `Text.Decimal` | ics-benin/server.js:36 | a non-negative integer renders as a non-empty string of digits without leading zeros |
| `Text.DecimalRoundTrip` | ics-benin/server.js:134 | reading the rendered digits back yields the number |
| `Text.ExtName` | ics-benin/server.js:35 | `path.extname` is empty or starts with `.`, has no other `.` and no `/` |
| `Text.ExtNameNonEmpty` | ics-benin/server.js:35 | the extension is non-empty iff the base name is not `..` and has a `.` after its first character; with `ExtNameEndsBasename` this fixes it as the base name from its last `.` |
| `Text.ExtNameEndsBasename` | ics-benin/server.js:115 | the extension is a suffix of the base name |
| `Text.ExtNameOfSuffixed` | server.js:32-33 | a dot-free, slash-free non-empty prefix followed by an extension has exactly that extension |
| `Text.BasenameOfJoin` | server.js:148 | `path.basename(dir + "/" + name)` is `name` for a non-empty, slash-free name |
| `Application.RequiredFieldsCheck` | ics-benin/server.js:87-98 | the validation fails iff `nom`, `prenom` or `metier` is absent from the body or whitespace only |
| `Application.BuildAttachments` | ics-benin/server.js:107-138 | the array built by successive pushes equals the attachment list; `photoCid` is `photo@application` iff a photo was uploaded |
| `Application.AttachmentsLayout` | ics-benin/server.js:110-138 | the length is [photo] + [cv] + the number of certificates; the photo comes first as `photo_{prenom}_{nom}{ext}` with the content id; then the CV as `cv_{prenom}_{nom}.pdf`; then the certificates as `certificat_{k+1}_{prenom}_{nom}.pdf` in upload order; only the photo has a content id |
| `Application.AttachmentsCarryEveryUpload` | server.js:77-105 | within the route's `maxCount` limits the attachment paths are exactly the paths of `Object.values(req.files).flat()`, in order |
| `Application.CertificateNamesDistinct` | ics-benin/server.js:134 | two certificate names coincide only for the same number |
| `Application.CleanPhone` | ics-benin/server.js:141 | `cleanPhone` is the digits of `telephone`; the empty-string guard changes nothing |
| `Application.InternationalNumber` | ics-benin/server.js:142-144 | `telephone` verbatim when it starts with `+`; otherwise empty iff it has no digit, else `+` followed by exactly its digits; always empty or starting with `+` |
| `Application.ComposeNotification` | ics-benin/server.js:154-178 | the call/WhatsApp block is present iff `telephone` is not whitespace only; the WhatsApp number is digits only; the `tel:` number is the international form; the `<img>` content id is present iff a photo cid is given; empty situation, age, telephone and position render as `Non spécifiée` or `Non spécifié`; the nationality is raw; the send time shown is the one given |
| `Application.Subject` | ics-benin/server.js:187 | the subject is the ship-emoji prefix `Candidature: `, then `prenom`, then ` {nom} - `, then `metier` |
| `Cleanup.UnlinkAll` | ics-benin/server.js:208-211 | after unlinking the paths one by one, the directory is the old one minus the listed paths whose removal is not refused; only listed paths are logged |
| `Cleanup.AfterCleanup` | ics-benin/server.js:206-213 | without `req.files` nothing changes and nothing is logged; otherwise every stored file of every field is attempted |
| `Cleanup.CleanupRemovesOnlyUploads` | server.js:179-186 | files the request did not upload stay; every uploaded file whose removal is not refused is gone |
| `Cleanup.CleanupIdempotent` | server.js:179-186 | a second cleanup leaves the directory as the first left it |
| `Cleanup.FailuresAreMissingOrDenied` | ics-benin/server.js:209-211 | for distinct paths, a path is logged iff its file was already gone or its removal was refused |
| `Cleanup.UploadDir.Unlink` | ics-benin/server.js:209 | the unlink succeeds iff the file is there and its removal is not refused, and then only that path leaves the directory |
| `Cleanup.UploadDir.CleanupFiles` | ics-benin/server.js:206-213 | the directory and the warning log become what `AfterCleanup` says; a failed unlink is logged and the loop goes on |
| `Http.Respond` | server.js:161-175 | success iff delivered; 200 iff delivered; 400 iff missing fields or upload error; 500 iff error payload or fault; missing fields answer `Champs obligatoires manquants`, an error payload `Échec envoi email`, a fault `Erreur serveur`, success `Candidature envoyée !`, and an upload error its own message |
| `Http.ErrorMiddleware` | ics-benin/server.js:221-224 | cleans up whatever `req.files` holds, then answers 400 with the error's message |
| `IcsBenin.Handle` | ics-benin/server.js:86-202 | 400 missing-fields iff validation fails; a message goes out iff the fields are valid and `req.files` exists; success iff it went out and `sendMail` resolved; otherwise 500; the message comes from `EMAIL_USER` under the display name, goes to `codemaxia@gmail.com` with the subject and the attachment list, its HTML is the composed notification (call block, placeholders, send time), and it shows the photo iff one was uploaded |
| `IcsBenin.HandleApplication` | ics-benin/server.js:83-203 | answers and mails as `Handle` says, and on every path the cleanup runs exactly once |
| `IcsBenin.MissingFieldsAnswer` | ics-benin/server.js:87-104 | the route answers 400 "Champs obligatoires manquants" and sends nothing iff `nom`, `prenom` or `metier` is absent or whitespace only |
| `IcsBenin.MailerReplies` | ics-benin/server.js:192-202 | with valid fields and `req.files` present a mail is built; a resolved `sendMail` answers 200 `Candidature envoyée !`, a rejected one 500 `Erreur serveur` |
| `IcsBenin.MailCarriesEveryUpload` | ics-benin/server.js:107-192 | a message that goes out carries every stored file in order; the inline image is there iff the first attachment has a content id, and it references that id |
| `RootServer.Recipient` | server.js:155 | `EMAIL_TO` when set and non-empty, otherwise `icsbenin01@gmail.com`; never empty |
| `RootServer.ForResend` | server.js:147-150 | fails iff some attachment's file is not on disk; otherwise same length and order, each entry being the base name of the stored path with that file's contents, and no content id |
| `RootServer.ResendUsesStoredNames` | server.js:147-150 | for files stored under generated names, the provider receives each file in `req.files` order under its stored name, not the derived name |
| `RootServer.Handle` | server.js:60-175 | 400 missing-fields iff validation fails; a message goes out iff the fields are valid, `req.files` exists and every file can be read; an error payload gives the send-failure outcome; a resolved send without error is the only success; the sender, recipient and subject are as configured; the attachments sent are exactly the `attachmentsForResend` remap of the attachment list, and the HTML is the composed notification, carrying the photo's content id iff a photo was uploaded |
| `RootServer.HandleApplication` | server.js:57-176 | answers and mails as `Handle` says, reading the files from the directory before cleanup; on every path the cleanup runs exactly once |
| `RootServer.MissingFieldsAnswer` | server.js:61-74 | 400 "Champs obligatoires manquants" with nothing sent iff `nom`, `prenom` or `metier` is absent or whitespace only |
| `RootServer.ProviderReplies` | server.js:161-175 | once a message goes out: an error payload gives 500 "Échec envoi email", no error gives 200 success, a throw gives 500 "Erreur serveur" |

## Left out

- Express setup, CORS, the body parsers, `app.listen` and `GET /health`: plumbing, or a
  constant answer.
- Multipart parsing, disk writes, the 25 MB size limit and the `maxCount` limits are multer's.
  The limits appear only as the `WithinLimits` precondition of the lemmas that need them.
  Multer's rejection of unexpected field names is outside the model too: `UploadedFiles` has
  exactly the three fields `photo`, `cv` and `certificats`.
- When multer aborts, it removes the files it already stored. The model does not capture this;
  the middleware's cleanup is modelled on whatever `req.files` holds.
- The network calls (`transporter.sendMail`, `resend.emails.send`) and `transporter.verify`.
  The first two are function parameters giving the collaborator's result. The third only logs.
- `fs.readFileSync` with base64 encoding: an opaque function of the path. A read fails only
  when the file is not in the upload directory.
- `fs.unlink` runs asynchronously and the handlers do not await it. The model runs each unlink
  to completion in turn and makes no claim about when deletions finish relative to the
  response.
- `Date.now`, `uuidv4`, `toLocaleString('fr-FR')` and `encodeURIComponent` are parameters or
  left opaque. The call block records the number before URI encoding.
- CSS and the static text of the HTML template; console logging, except the cleanup warnings.
- Body values that are not strings (a JSON body with a number for `nom`) would make `.trim()`
  throw. The body is modelled as a map of strings.
- `Object.values(req.files)` follows the order in which fields first arrived. The model uses
  photo, CV, certificates. The resulting directory does not depend on the order
  (`Cleanup.UnlinkAll`).
- `path.join(uploadDir, name)` is modelled as `uploadDir + "/" + name`. Normalisation does not
  change a generated name.
- Characters: Dafny strings are sequences of Unicode scalar values, while JavaScript strings
  are UTF-16. Lengths of non-ASCII text therefore differ, which no property here depends on.
