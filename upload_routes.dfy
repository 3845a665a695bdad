// The local upload routes (server/routes/upload.js): single image, video
// and document uploads behind a MIME filter and a 50 MB limit, the
// multi-file upload that files each upload by its MIME type, and deletion
// by folder and file name.  The bytes, the disk and the image resizing are
// not modelled: a file is its multer description, and the disk is the set
// of stored (folder, file name) pairs.
module UploadRoutes {
  import opened Common

  // ---------------------------------------------------------------------
  // Files and folders

  /** A file as multer describes it once stored: `filename` is the name it
      was given on disk (field name, clock, random suffix and extension). */
  datatype File = File(fieldname: string, originalname: string, filename: string, mimetype: string, size: nat)

  /** The three folders under `uploads/`. */
  datatype Folder = Images | Videos | Documents

  /** The folder's name in paths and URLs. */
  function FolderName(f: Folder): (r: string)
    ensures r in ["images", "videos", "documents"]
  {
    match f
    case Images => "images"
    case Videos => "videos"
    case Documents => "documents"
  }

  /** The folder names are the folders, one to one. */
  lemma FolderNamesDistinct(f: Folder, g: Folder)
    ensures FolderName(f) == FolderName(g) <==> f == g
  {
  }

  // ---------------------------------------------------------------------
  // Filters and limits

  const MB: nat := 1024 * 1024

  /** `limits.fileSize` of every uploader here. */
  const MaxFileSize: nat := 50 * MB

  /** `limits.files` and the `array('files', 10)` count of the multi-file
      upload. */
  const MaxFiles: nat := 10

  predicate ImageFilter(mimetype: string)
  {
    IsPrefix("image/", mimetype)
  }

  predicate VideoFilter(mimetype: string)
  {
    IsPrefix("video/", mimetype)
  }

  const Application := "application/"

  /** PDF, DOC, DOCX, PPT, PPTX and plain text. */
  const DocumentTypes: seq<string> := [
    Application + "pdf",
    Application + "msword",
    Application + "vnd.openxmlformats-officedocument.wordprocessingml.document",
    Application + "vnd.ms-powerpoint",
    Application + "vnd.openxmlformats-officedocument.presentationml.presentation",
    "text/plain"]

  predicate DocumentFilter(mimetype: string)
  {
    mimetype in DocumentTypes
  }

  /** The single-file uploaders: each has its field, filter, folder and
      messages. */
  datatype Kind = ImageUpload | VideoUpload | DocumentUpload

  predicate Accepts(k: Kind, mimetype: string)
  {
    match k
    case ImageUpload => ImageFilter(mimetype)
    case VideoUpload => VideoFilter(mimetype)
    case DocumentUpload => DocumentFilter(mimetype)
  }

  function KindFolder(k: Kind): Folder
  {
    match k
    case ImageUpload => Images
    case VideoUpload => Videos
    case DocumentUpload => Documents
  }

  /** The filter's rejection message. */
  function RejectionMessage(k: Kind): string
  {
    match k
    case ImageUpload => "Only image files are allowed!"
    case VideoUpload => "Only video files are allowed!"
    case DocumentUpload => "Only document files (PDF, DOC, DOCX, PPT, PPTX, TXT) are allowed!"
  }

  /** The handler's message when the request carried no file. */
  function MissingMessage(k: Kind): string
  {
    match k
    case ImageUpload => "No image file provided"
    case VideoUpload => "No video file provided"
    case DocumentUpload => "No document file provided"
  }

  const TooLargeMessage := "File too large. Maximum size is 50MB."

  /** The image and video filters test the MIME prefix only, so one file is
      never both; the document filter takes none of the image or video
      types. */
  lemma FiltersDisjoint(mimetype: string)
    ensures !(ImageFilter(mimetype) && VideoFilter(mimetype))
    ensures DocumentFilter(mimetype) ==> !ImageFilter(mimetype) && !VideoFilter(mimetype)
  {
    if ImageFilter(mimetype) {
      assert mimetype[0] == "image/"[0] == 'i';
    }
    if VideoFilter(mimetype) {
      assert mimetype[0] == "video/"[0] == 'v';
    }
    if DocumentFilter(mimetype) {
      var k :| 0 <= k < |DocumentTypes| && DocumentTypes[k] == mimetype;
      assert k < 5 ==> DocumentTypes[k][0] == Application[0] == 'a';
    }
  }

  // ---------------------------------------------------------------------
  // POST /image, /video, /document

  /** A refusal (status and message) or the reply's body. */
  datatype Reply<T> = Refused(status: int, message: string) | Sent(body: T)

  datatype UploadReply = UploadReply(url: string, filename: string, originalName: string, size: nat, mimetype: string)

  /** The URL under which a stored file is served. */
  function UrlOf(folder: Folder, filename: string): (r: string)
    ensures IsPrefix("/uploads/" + FolderName(folder) + "/", r)
  {
    "/uploads/" + FolderName(folder) + "/" + filename
  }

  /** What multer makes of the request's single file: a file the filter
      rejects reaches the router's error handler (400 with the filter's
      message), so does one over the size limit (400); without a file the
      handler answers 400 itself.  Otherwise the file is stored in the
      uploader's folder. */
  function Received(k: Kind, file: Option<File>): (r: Reply<File>)
    ensures r.Sent? <==> file.Some? && Accepts(k, file.value.mimetype) && file.value.size <= MaxFileSize
    ensures r.Sent? ==> r.body == file.value
    ensures r.Refused? ==> r.status == 400
    ensures file.Some? && !Accepts(k, file.value.mimetype) ==> r.message == RejectionMessage(k)
    ensures file.Some? && Accepts(k, file.value.mimetype) && file.value.size > MaxFileSize ==> r.message == TooLargeMessage
    ensures file.None? ==> r.message == MissingMessage(k)
  {
    match file
    case None => Refused(400, MissingMessage(k))
    case Some(f) =>
      if !Accepts(k, f.mimetype) then Refused(400, RejectionMessage(k))
      else if f.size > MaxFileSize then Refused(400, TooLargeMessage)
      else Sent(f)
  }

  /** A video or document upload: the stored file's URL and description. */
  function UploadFile(k: Kind, file: Option<File>): (r: Reply<UploadReply>)
    requires k != ImageUpload
    ensures r.Sent? <==> Received(k, file).Sent?
    ensures r.Sent? ==>
      r.body.url == UrlOf(KindFolder(k), file.value.filename) && r.body.mimetype == file.value.mimetype && Accepts(k, r.body.mimetype) && r.body.size <= MaxFileSize
  {
    match Received(k, file)
    case Refused(status, message) => Refused(status, message)
    case Sent(f) => Sent(UploadReply(UrlOf(KindFolder(k), f.filename), f.filename, f.originalname, f.size, f.mimetype))
  }

  /** The image upload: the accepted image is converted to WebP under the
      name `optimized-<now>.webp`; `optimizedSize` is the converted file's
      size on disk. */
  datatype ImageReply = ImageReply(url: string, filename: string, originalName: string, size: nat)

  function UploadImage(file: Option<File>, now: nat, optimizedSize: nat): (r: Reply<ImageReply>)
    ensures r.Sent? <==> Received(ImageUpload, file).Sent?
    ensures r.Sent? ==>
      r.body.filename == "optimized-" + NatToString(now) + ".webp" &&
      r.body.url == UrlOf(Images, r.body.filename) && r.body.originalName == file.value.originalname
  {
    match Received(ImageUpload, file)
    case Refused(status, message) => Refused(status, message)
    case Sent(f) =>
      var name := "optimized-" + NatToString(now) + ".webp";
      Sent(ImageReply(UrlOf(Images, name), name, f.originalname, optimizedSize))
  }

  /** A document upload never stores a file the video uploader would
      take, nor the reverse. */
  lemma UploadersSeparate(file: File)
    ensures UploadFile(DocumentUpload, Some(file)).Sent? ==> UploadFile(VideoUpload, Some(file)).Refused?
    ensures UploadFile(VideoUpload, Some(file)).Sent? ==> UploadFile(DocumentUpload, Some(file)).Refused?
  {
    FiltersDisjoint(file.mimetype);
  }

  // ---------------------------------------------------------------------
  // POST /multiple

  /** The storage callback's choice of folder: by MIME prefix, documents
      for everything else. */
  function Destination(mimetype: string): (r: Folder)
    ensures r == Images <==> ImageFilter(mimetype)
    ensures r == Videos <==> VideoFilter(mimetype) && !ImageFilter(mimetype)
  {
    if IsPrefix("image/", mimetype) then Images
    else if IsPrefix("video/", mimetype) then Videos
    else Documents
  }

  /** Why multer refuses a multi-file request, reading the files in order:
      an 11th file exceeds the count limit, and a file over the size limit
      stops the upload at that file. */
  datatype MultiError = TooManyFiles | FileTooLarge(index: nat)

  function FirstProblem(files: seq<File>, i: nat): (r: Option<MultiError>)
    requires i <= |files| && i <= MaxFiles
    ensures r.None? <==> |files| <= MaxFiles && forall j :: i <= j < |files| ==> files[j].size <= MaxFileSize
    ensures r.Some? && r.value.FileTooLarge? ==>
      i <= r.value.index < |files| && r.value.index < MaxFiles && files[r.value.index].size > MaxFileSize
    decreases |files| - i
  {
    if i == |files| then None
    else if i == MaxFiles then Some(TooManyFiles)
    else if files[i].size > MaxFileSize then Some(FileTooLarge(i))
    else FirstProblem(files, i + 1)
  }

  datatype MultiReply = MultiReply(message: string, files: seq<UploadReply>)

  /** One entry of the reply: the file's URL in the folder its MIME type
      selects. */
  function EntryOf(f: File): UploadReply
  {
    UploadReply(UrlOf(Destination(f.mimetype), f.filename), f.filename, f.originalname, f.size, f.mimetype)
  }

  /** The reply's list, built by the loop over `req.files`: the URL prefix
      chosen by the same MIME tests as the storage folder. */
  method UploadedFiles(files: seq<File>) returns (uploaded: seq<UploadReply>)
    ensures |uploaded| == |files|
    ensures forall k :: 0 <= k < |files| ==> uploaded[k] == EntryOf(files[k])
  {
    uploaded := [];
    for i := 0 to |files|
      invariant |uploaded| == i
      invariant forall k :: 0 <= k < i ==> uploaded[k] == EntryOf(files[k])
    {
      var file := files[i];
      var fileUrl := "/uploads/";
      if IsPrefix("image/", file.mimetype) {
        fileUrl := fileUrl + "images/" + file.filename;
      } else if IsPrefix("video/", file.mimetype) {
        fileUrl := fileUrl + "videos/" + file.filename;
      } else {
        fileUrl := fileUrl + "documents/" + file.filename;
      }
      uploaded := uploaded + [UploadReply(fileUrl, file.filename, file.originalname, file.size, file.mimetype)];
    }
  }

  /** The multi-file upload over the request's files in order: 400 when
      multer refuses them, otherwise one entry per file and the count in
      the message.  No MIME filter applies here. */
  method UploadMultiple(files: seq<File>) returns (r: Reply<MultiReply>)
    ensures r.Refused? <==> FirstProblem(files, 0).Some?
    ensures r.Refused? ==> r.status == 400
    ensures r.Sent? ==>
      |files| <= MaxFiles && |r.body.files| == |files| &&
      r.body.message == NatToString(|files|) + " files uploaded successfully" &&
      forall k :: 0 <= k < |files| ==> r.body.files[k] == EntryOf(files[k]) && files[k].size <= MaxFileSize
  {
    var problem := FirstProblem(files, 0);
    if problem.Some? {
      var message := if problem.value.TooManyFiles? then "Too many files" else "File too large";
      return Refused(400, message);
    }
    var uploaded := UploadedFiles(files);
    r := Sent(MultiReply(NatToString(|uploaded|) + " files uploaded successfully", uploaded));
  }

  /** Each returned URL names the folder the file was stored in, and that
      folder is the one the single uploaders use for its kind. */
  lemma UrlMatchesStorage(f: File)
    ensures EntryOf(f).url == UrlOf(Destination(f.mimetype), f.filename)
    ensures ImageFilter(f.mimetype) ==> Destination(f.mimetype) == KindFolder(ImageUpload)
    ensures VideoFilter(f.mimetype) ==> Destination(f.mimetype) == KindFolder(VideoUpload)
    ensures DocumentFilter(f.mimetype) ==> Destination(f.mimetype) == KindFolder(DocumentUpload)
  {
    FiltersDisjoint(f.mimetype);
  }

  /** Ten files within the size limit are taken; an eleventh is refused. */
  lemma TenFilesAtMost(files: seq<File>)
    requires forall j :: 0 <= j < |files| ==> files[j].size <= MaxFileSize
    ensures FirstProblem(files, 0).None? <==> |files| <= 10
  {
  }

  // ---------------------------------------------------------------------
  // DELETE /:type/:filename

  /** The `type` parameter's folder: only the three folder names. */
  function FolderOf(t: string): (r: Option<Folder>)
    ensures r.Some? <==> t in ["images", "videos", "documents"]
    ensures r.Some? ==> FolderName(r.value) == t
  {
    if t == "images" then Some(Images)
    else if t == "videos" then Some(Videos)
    else if t == "documents" then Some(Documents)
    else None
  }

  datatype Removal = Removal(stored: set<(Folder, string)>, reply: Reply<()>)

  /** Delete a stored file: 400 for any other type, 404 when no such file
      is stored; otherwise that one file is removed. */
  function Delete(stored: set<(Folder, string)>, t: string, filename: string): (r: Removal)
    ensures FolderOf(t).None? ==> r == Removal(stored, Refused(400, "Invalid file type"))
    ensures FolderOf(t).Some? && (FolderOf(t).value, filename) !in stored ==> r == Removal(stored, Refused(404, "File not found"))
    ensures r.reply.Sent? <==> FolderOf(t).Some? && (FolderOf(t).value, filename) in stored
    ensures r.reply.Sent? ==> r.stored == stored - {(FolderOf(t).value, filename)}
  {
    match FolderOf(t)
    case None => Removal(stored, Refused(400, "Invalid file type"))
    case Some(folder) =>
      if (folder, filename) in stored then Removal(stored - {(folder, filename)}, Sent(()))
      else Removal(stored, Refused(404, "File not found"))
  }

  /** A second deletion of the same file finds nothing. */
  lemma DeleteTwice(stored: set<(Folder, string)>, t: string, filename: string)
    requires Delete(stored, t, filename).reply.Sent?
    ensures Delete(Delete(stored, t, filename).stored, t, filename).reply == Refused(404, "File not found")
  {
  }

  /** A file uploaded through the multi-file route can be deleted through
      the folder name its URL carries. */
  lemma UploadedCanBeDeleted(stored: set<(Folder, string)>, f: File)
    requires (Destination(f.mimetype), f.filename) in stored
    ensures Delete(stored, FolderName(Destination(f.mimetype)), f.filename).reply.Sent?
  {
  }
}
