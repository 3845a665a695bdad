// The upload filter of the Cloudinary helpers (server/utils/cloudinary.js):
// a file is checked against the MIME list of the type the form declares,
// and each of the four uploaders has its own size limit.  The Cloudinary
// calls themselves are not modelled.
module CloudinaryFilter {
  import opened Common
  import UploadRoutes

  // ---------------------------------------------------------------------
  // The type lists

  const VideoTypes: seq<string> := ["video/mp4", "video/avi", "video/mov", "video/wmv", "video/flv", "video/webm"]

  const ImageTypes: seq<string> := ["image/jpeg", "image/jpg", "image/png", "image/gif", "image/webp"]

  const Application := "application/"

  const DocumentTypes: seq<string> := [
    Application + "pdf",
    Application + "msword",
    Application + "vnd.openxmlformats-officedocument.wordprocessingml.document",
    Application + "vnd.ms-powerpoint",
    Application + "vnd.openxmlformats-officedocument.presentationml.presentation",
    "text/plain",
    Application + "zip",
    Application + "x-rar-compressed"]

  /** `allowedTypes[type]` for the object's own keys. */
  function AllowedTypes(t: string): (r: Option<seq<string>>)
    ensures r.Some? <==> t in ["video", "image", "document"]
  {
    if t == "video" then Some(VideoTypes)
    else if t == "image" then Some(ImageTypes)
    else if t == "document" then Some(DocumentTypes)
    else None
  }

  /** The documents this filter takes are those of the local document
      upload, plus ZIP and RAR archives. */
  lemma DocumentsExtendLocalList()
    ensures DocumentTypes == UploadRoutes.DocumentTypes + [Application + "zip", Application + "x-rar-compressed"]
    ensures forall m :: UploadRoutes.DocumentFilter(m) ==> m in DocumentTypes
  {
  }

  // ---------------------------------------------------------------------
  // The rejection message

  /** `list.join(sep)`. */
  function Join(xs: seq<string>, sep: string): string
  {
    if xs == [] then []
    else if |xs| == 1 then xs[0]
    else xs[0] + sep + Join(xs[1..], sep)
  }

  /** Every element of the list appears in its join. */
  lemma {:induction false} JoinContainsEach(xs: seq<string>, sep: string, i: int)
    requires 0 <= i < |xs|
    ensures Contains(Join(xs, sep), xs[i])
  {
    if |xs| == 1 {
      ContainsAt(xs[0], xs[0], 0);
    } else if i == 0 {
      ContainsAt(xs[0] + sep + Join(xs[1..], sep), xs[0], 0);
    } else {
      JoinContainsEach(xs[1..], sep, i - 1);
      ContainsAfter(xs[0] + sep, Join(xs[1..], sep), xs[i]);
    }
  }

  function RejectionMessage(t: string, allowed: seq<string>): string
  {
    "Invalid file type for " + t + ". Allowed types: " + Join(allowed, ", ")
  }

  /** The rejection names the declared type and every type it would have
      taken. */
  lemma RejectionNamesTheList(t: string, allowed: seq<string>)
    ensures IsPrefix("Invalid file type for " + t, RejectionMessage(t, allowed))
    ensures forall i :: 0 <= i < |allowed| ==> Contains(RejectionMessage(t, allowed), allowed[i])
  {
    var head := "Invalid file type for " + t + ". Allowed types: ";
    assert RejectionMessage(t, allowed) == head + Join(allowed, ", ");
    forall i | 0 <= i < |allowed|
      ensures Contains(RejectionMessage(t, allowed), allowed[i])
    {
      JoinContainsEach(allowed, ", ", i);
      ContainsAfter(head, Join(allowed, ", "), allowed[i]);
    }
  }

  // ---------------------------------------------------------------------
  // The filter

  /** The filter's verdict: take the file, refuse it with a message, or
      fail with a TypeError before deciding. */
  datatype Verdict = Accept | Reject(message: string) | Throws

  /** Keys every plain object inherits from Object.prototype; looking one
      up on `allowedTypes` yields a function or the prototype object. */
  predicate IsInheritedKey(k: string)
  {
    k in ["constructor", "__proto__", "hasOwnProperty", "isPrototypeOf", "propertyIsEnumerable",
          "toString", "toLocaleString", "valueOf", "__defineGetter__", "__defineSetter__",
          "__lookupGetter__", "__lookupSetter__"]
  }

  /** The filter as written: `type && allowedTypes[type]` is truthy for an
      inherited key as well, and calling `.includes` on what that lookup
      returns throws. */
  function FileFilterAsWritten(t: Option<string>, mimetype: string): (r: Verdict)
    ensures t.Some? && IsInheritedKey(t.value) ==> r == Throws
  {
    match t
    case None => Accept
    case Some(name) =>
      if name == [] then Accept
      else match AllowedTypes(name)
        case Some(allowed) => if mimetype in allowed then Accept else Reject(RejectionMessage(name, allowed))
        case None => if IsInheritedKey(name) then Throws else Accept
  }

  /** The filter as intended: with a declared type of its own table the
      file is taken exactly when its MIME type is listed; any other or no
      declared type takes every file. */
  function FileFilter(t: Option<string>, mimetype: string): (r: Verdict)
    ensures r != Throws
    ensures t.Some? && AllowedTypes(t.value).Some? ==>
      (r == Accept <==> mimetype in AllowedTypes(t.value).value)
    ensures t.Some? && AllowedTypes(t.value).Some? && r != Accept ==>
      r == Reject(RejectionMessage(t.value, AllowedTypes(t.value).value))
    ensures t.None? || AllowedTypes(t.value).None? ==> r == Accept
  {
    match t
    case None => Accept
    case Some(name) =>
      match AllowedTypes(name)
      case Some(allowed) => if mimetype in allowed then Accept else Reject(RejectionMessage(name, allowed))
      case None => Accept
  }

  /** Apart from the inherited keys the two agree. */
  lemma AsWrittenAgreesOffPrototype(t: Option<string>, mimetype: string)
    requires t.Some? ==> !IsInheritedKey(t.value)
    ensures FileFilterAsWritten(t, mimetype) == FileFilter(t, mimetype)
  {
  }

  /** A form field `type=constructor` makes the filter as written throw
      where the intended filter takes the file. */
  lemma ConstructorTypeThrows(mimetype: string)
    ensures FileFilterAsWritten(Some("constructor"), mimetype) == Throws
    ensures FileFilter(Some("constructor"), mimetype) == Accept
  {
    assert IsInheritedKey("constructor");
  }

  // ---------------------------------------------------------------------
  // The uploaders

  datatype Uploader = VideoUploader | ImageUploader | DocumentUploader | AnyUploader

  const MB: nat := 1024 * 1024

  /** `limits.fileSize` of each uploader. */
  function SizeLimit(u: Uploader): (r: nat)
    ensures r <= 100 * MB
    ensures u == VideoUploader || u == AnyUploader <==> r == 100 * MB
  {
    match u
    case VideoUploader => 100 * MB
    case ImageUploader => 10 * MB
    case DocumentUploader => 25 * MB
    case AnyUploader => 100 * MB
  }

  /** An uploader takes a file that its filter takes and that is within its
      size limit.  The type check follows the declared form field, not the
      uploader. */
  predicate Takes(u: Uploader, t: Option<string>, mimetype: string, size: nat)
  {
    FileFilter(t, mimetype) == Accept && size <= SizeLimit(u)
  }

  /** The image uploader refuses any file over 10 MB, whatever its type;
      and with the form declaring "video" it takes a small MP4. */
  lemma UploaderDoesNotFixType(t: Option<string>, mimetype: string, size: nat)
    ensures size > 10 * MB ==> !Takes(ImageUploader, t, mimetype, size)
    ensures Takes(ImageUploader, Some("video"), "video/mp4", MB)
  {
    assert "video/mp4" in VideoTypes;
  }

  /** Everything the image, document or video uploader takes, the any-type
      uploader takes too. */
  lemma AnyUploaderTakesMost(u: Uploader, t: Option<string>, mimetype: string, size: nat)
    requires Takes(u, t, mimetype, size)
    ensures Takes(AnyUploader, t, mimetype, size)
  {
  }
}
