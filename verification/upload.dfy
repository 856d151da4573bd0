/** The two multer callbacks the handlers configure, which both server variants share: the
    `fileFilter` that admits a file part by field name and MIME type, and the disk-storage
    `filename` callback that names the stored file. The clock (Date.now) and the random id
    (uuidv4) are parameters. */
module Upload {
  import opened Text

  const ImagePrefix := "image/"
  const PdfMime := "application/pdf"

  /** The two rejection messages; each server variant words them its own way. */
  datatype FilterMessages = FilterMessages(photo: string, documents: string)

  /** What the filter tells multer: accept the part, or fail the request with an error. */
  datatype Verdict = Accept | Reject(message: string)

  /** The `fileFilter` callback. */
  function FileFilter(msgs: FilterMessages, fieldname: string, mimetype: string): (v: Verdict)
    ensures fieldname == "photo" ==> (v.Accept? <==> ImagePrefix <= mimetype)
    ensures fieldname == "cv" || fieldname == "certificats" ==> (v.Accept? <==> mimetype == PdfMime)
    ensures fieldname != "photo" && fieldname != "cv" && fieldname != "certificats" ==> v.Accept?
    ensures v.Reject? ==> v.message == if fieldname == "photo" then msgs.photo else msgs.documents
  {
    if fieldname == "photo" && !(ImagePrefix <= mimetype) then
      Reject(msgs.photo)
    else if (fieldname == "cv" || fieldname == "certificats") && mimetype != PdfMime then
      Reject(msgs.documents)
    else
      Accept
  }

  /** The headers of one file part, as multer hands them to the callbacks. */
  datatype PartHeader = PartHeader(fieldname: string, originalname: string, mimetype: string)

  predicate Admitted(msgs: FilterMessages, part: PartHeader) {
    FileFilter(msgs, part.fieldname, part.mimetype).Accept?
  }

  /** The first part of a request the filter rejects (multer aborts there), or -1 when it admits
      them all. */
  function FirstRejected(msgs: FilterMessages, parts: seq<PartHeader>): (k: int)
    ensures -1 <= k < |parts|
    ensures k == -1 <==> forall i :: 0 <= i < |parts| ==> Admitted(msgs, parts[i])
    ensures k >= 0 ==> !Admitted(msgs, parts[k]) && forall i :: 0 <= i < k ==> Admitted(msgs, parts[i])
  {
    if parts == [] then -1
    else if !Admitted(msgs, parts[0]) then 0
    else
      var k := FirstRejected(msgs, parts[1..]);
      assert forall i :: 1 <= i < |parts| ==> parts[i] == parts[1..][i - 1];
      if k == -1 then -1 else k + 1
  }

  /** The error a request's file parts raise, if any: the filter's verdict on the first part it
      rejects. Each server variant passes its own wording of the two messages. Unless multer
      fails first on one of its own limits (an unexpected field, a count or size limit), this
      is the message the error middleware answers with. */
  function UploadError(msgs: FilterMessages, parts: seq<PartHeader>): (e: Verdict)
    ensures e.Accept? <==> forall i :: 0 <= i < |parts| ==> Admitted(msgs, parts[i])
    ensures e.Reject? ==> e.message == msgs.photo || e.message == msgs.documents
    ensures e.Reject? ==>
      var k := FirstRejected(msgs, parts);
      e.message == if parts[k].fieldname == "photo" then msgs.photo else msgs.documents
  {
    var k := FirstRejected(msgs, parts);
    if k == -1 then Accept else FileFilter(msgs, parts[k].fieldname, parts[k].mimetype)
  }

  /** `uuidv4().substring(0, 8)`: at most the first eight characters. */
  function IdPrefix(uuid: string): (id: string)
    ensures |id| == if |uuid| < 8 then |uuid| else 8
    ensures id == uuid[..|id|]
  {
    if |uuid| <= 8 then uuid else uuid[..8]
  }

  /** The disk-storage `filename` callback: `{Date.now()}-{8-character id}{extension}`. */
  function StoredName(now: nat, uuid: string, originalname: string): string {
    Decimal(now) + "-" + IdPrefix(uuid) + ExtName(originalname)
  }

  /** The stored name is the decimal timestamp and '-', then the id prefix, then the original
      name's extension, in that order. */
  lemma StoredNameLayout(now: nat, uuid: string, originalname: string)
    ensures var name, head, ext := StoredName(now, uuid, originalname), Decimal(now) + "-", ExtName(originalname);
      && |name| == |head| + |IdPrefix(uuid)| + |ext|
      && name[..|head|] == head
      && name[|head|..|name| - |ext|] == IdPrefix(uuid)
      && name[|name| - |ext|..] == ext
  {
    ThreeParts(Decimal(now) + "-", IdPrefix(uuid), ExtName(originalname));
  }

  lemma ThreeParts(a: string, b: string, c: string)
    ensures (a + b + c)[..|a|] == a
    ensures (a + b + c)[|a|..|a| + |b|] == b
    ensures (a + b + c)[|a| + |b|..] == c
  {
  }

  /** What uuidv4 produces: hexadecimal digits and dashes, hence no '.' and no '/'. */
  predicate PlainId(uuid: string) {
    Lacks(uuid, '.') && Lacks(uuid, '/')
  }

  /** The stored name has the original name's extension. */
  lemma StoredNameKeepsExtension(now: nat, uuid: string, originalname: string)
    requires PlainId(uuid)
    ensures ExtName(StoredName(now, uuid, originalname)) == ExtName(originalname)
  {
    var prefix := Decimal(now) + "-" + IdPrefix(uuid);
    assert StoredName(now, uuid, originalname) == prefix + ExtName(originalname);
    IdPrefixLacks(uuid, '.');
    IdPrefixLacks(uuid, '/');
    LacksAppend(Decimal(now), "-", '.');
    LacksAppend(Decimal(now) + "-", IdPrefix(uuid), '.');
    LacksAppend(Decimal(now), "-", '/');
    LacksAppend(Decimal(now) + "-", IdPrefix(uuid), '/');
    ExtNameOfSuffixed(prefix, ExtName(originalname));
  }

  lemma StoredNameSplits(now: nat, uuid: string, originalname: string)
    ensures StoredName(now, uuid, originalname)
         == Decimal(now) + ['-'] + (IdPrefix(uuid) + ExtName(originalname))
  {
  }

  lemma IdPrefixLacks(uuid: string, c: char)
    requires Lacks(uuid, c)
    ensures Lacks(IdPrefix(uuid), c)
  {
  }

  /** Two stored names are equal only when they were made at the same millisecond with the same
      id prefix: the clock and the id can be read back from the name. */
  lemma StoredNameDeterminesClockAndId(now1: nat, uuid1: string, name1: string,
                                       now2: nat, uuid2: string, name2: string)
    requires StoredName(now1, uuid1, name1) == StoredName(now2, uuid2, name2)
    requires |uuid1| >= 8 && |uuid2| >= 8
    ensures now1 == now2 && uuid1[..8] == uuid2[..8]
  {
    var d1, d2 := Decimal(now1), Decimal(now2);
    var rest1, rest2 := IdPrefix(uuid1) + ExtName(name1), IdPrefix(uuid2) + ExtName(name2);
    StoredNameSplits(now1, uuid1, name1);
    StoredNameSplits(now2, uuid2, name2);
    DigitsLack(d1, '-');
    DigitsLack(d2, '-');
    SplitAtFirst(d1, rest1, d2, rest2, '-');
    DecimalInjective(now1, now2);
    assert rest1[..8] == uuid1[..8] && rest2[..8] == uuid2[..8];
  }

  /** One file multer stored on disk: its field, the client's name and type, the generated name,
      and the path it lives at. */
  datatype StoredFile = StoredFile(fieldname: string, originalname: string, mimetype: string,
                                   filename: string, path: string)

  /** The file multer stores for an admitted part: the generated name, joined under the upload
      directory. */
  function Store(uploadDir: string, part: PartHeader, now: nat, uuid: string): (f: StoredFile)
    ensures f.fieldname == part.fieldname && f.originalname == part.originalname
    ensures f.mimetype == part.mimetype
    ensures f.filename == StoredName(now, uuid, part.originalname)
    ensures f.path == uploadDir + "/" + f.filename
  {
    var name := StoredName(now, uuid, part.originalname);
    StoredFile(part.fieldname, part.originalname, part.mimetype, name, uploadDir + "/" + name)
  }

  /** The base name of a stored path is the generated name. */
  lemma StoredPathBasename(uploadDir: string, part: PartHeader, now: nat, uuid: string)
    requires PlainId(uuid)
    ensures Basename(Store(uploadDir, part, now, uuid).path) == Store(uploadDir, part, now, uuid).filename
  {
    var d, id, ext := Decimal(now), IdPrefix(uuid), ExtName(part.originalname);
    IdPrefixLacks(uuid, '/');
    LacksAppend(d, "-", '/');
    LacksAppend(d + "-", id, '/');
    LacksAppend(d + "-" + id, ext, '/');
    assert Store(uploadDir, part, now, uuid).filename == d + "-" + id + ext;
    BasenameOfJoin(uploadDir, d + "-" + id + ext);
  }

  /** `req.files` as multer's `fields` mode fills it: the files stored per field, in upload order. */
  datatype UploadedFiles = UploadedFiles(photo: seq<StoredFile>, cv: seq<StoredFile>,
                                         certificats: seq<StoredFile>)

  /** The `maxCount` limits the route declares, which multer enforces before the handler runs. */
  predicate WithinLimits(files: UploadedFiles) {
    |files.photo| <= 1 && |files.cv| <= 1 && |files.certificats| <= 5
  }

  /** `Object.values(req.files).flat()`. */
  function AllFiles(files: UploadedFiles): seq<StoredFile> {
    files.photo + files.cv + files.certificats
  }

  function PathsOf(fs: seq<StoredFile>): (ps: seq<string>)
    ensures |ps| == |fs| && forall i :: 0 <= i < |fs| ==> ps[i] == fs[i].path
  {
    seq(|fs|, i requires 0 <= i < |fs| => fs[i].path)
  }
}
