/** What each terminal path of the upload route answers, and the error middleware both servers
    install. */
module Http {
  import opened Wrappers
  import opened Upload
  import opened Cleanup

  /** How a request ends: the required fields are missing, the mail provider returned an error
      payload, something threw, the upload itself failed before the handler ran, or the mail
      went out. */
  datatype Outcome = MissingFields | SendFailed | Fault | UploadRejected(message: string) | Delivered

  /** The JSON envelope `{success, message}` and the HTTP status it is sent with. */
  datatype Response = Response(status: nat, success: bool, message: string)

  const MissingFieldsMessage := "Champs obligatoires manquants"
  const SendFailedMessage := "Échec envoi email"
  const FaultMessage := "Erreur serveur"
  const DeliveredMessage := "Candidature envoyée !"

  function Respond(o: Outcome): (r: Response)
    ensures r.success <==> o.Delivered?
    ensures r.status == 200 <==> o.Delivered?
    ensures r.status == 400 <==> o.MissingFields? || o.UploadRejected?
    ensures r.status == 500 <==> o.SendFailed? || o.Fault?
    ensures o.MissingFields? ==> r.message == MissingFieldsMessage
    ensures o.SendFailed? ==> r.message == SendFailedMessage
    ensures o.Fault? ==> r.message == FaultMessage
    ensures o.Delivered? ==> r.message == DeliveredMessage
    ensures o.UploadRejected? ==> r.message == o.message
  {
    match o
    case MissingFields => Response(400, false, MissingFieldsMessage)
    case SendFailed => Response(500, false, SendFailedMessage)
    case Fault => Response(500, false, FaultMessage)
    case UploadRejected(message) => Response(400, false, message)
    case Delivered => Response(200, true, DeliveredMessage)
  }

  /** The error middleware: cleans up whatever multer stored, then answers 400 with the error's
      message. */
  method ErrorMiddleware(dir: UploadDir, uploaded: Option<UploadedFiles>, message: string, denied: set<string>)
    returns (resp: Response)
    modifies dir
    ensures resp == Respond(UploadRejected(message))
    ensures dir.files == AfterCleanup(old(dir.files), uploaded, denied).remaining
    ensures dir.warnings == old(dir.warnings) + AfterCleanup(old(dir.files), uploaded, denied).failed
  {
    dir.CleanupFiles(uploaded, denied);
    resp := Respond(UploadRejected(message));
  }
}
