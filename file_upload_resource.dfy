// The resource uploader (client/src/components/FileUploadResource.jsx): the
// checks a file must pass, the batch upload that keeps the files passing
// them, the resource type and icon of a file, and removing a resource.
// The object URLs, ids and upload times the browser makes for each file
// are parameters; the alerts are returned as the list of errors.
module FileUploadResource {
  import opened Common

  /** A file picked or dropped: its name, MIME type and size in bytes. */
  datatype File = File(name: string, mime: string, size: int)

  /** The component's settings (`allowedTypes`, `maxFileSize`, `maxFiles`). */
  datatype Limits = Limits(allowedTypes: string, maxFileSize: int, maxFiles: int)

  /** The defaults: any type, 10 MB, ten files. */
  const DefaultLimits := Limits("all", 10 * 1024 * 1024, 10)

  datatype Resource = Resource(id: int, title: string, url: string, kind: string, size: int, uploadedAt: string)

  datatype UploadError = TooLarge | TypeNotAllowed | TooManyFiles

  // ---------------------------------------------------------------------
  // The allowed types

  /** `s.split(c)`. */
  function Split(s: string, c: char): (r: seq<string>)
    ensures |r| >= 1
    decreases |s|
  {
    var head := BeforeFirst(s, c);
    if |head| == |s| then [s] else [head] + Split(s[|head| + 1..], c)
  }

  /** `allowedTypes.split(',').map(t => t.trim())`. */
  function Tokens(allowedTypes: string): seq<string>
  {
    var parts := Split(allowedTypes, ',');
    seq(|parts|, i requires 0 <= i < |parts| => Trim(parts[i]))
  }

  /** `file.name.split('.').pop().toLowerCase()`. */
  function Extension(name: string): string
  {
    ToLower(AfterLast(name, '.'))
  }

  /** A file's type is allowed when the setting is "all", or some listed
      type occurs in its MIME type or equals its lower-cased extension. */
  predicate TypeAllowed(allowedTypes: string, f: File)
  {
    allowedTypes == "all" ||
    exists t :: t in Tokens(allowedTypes) && (Contains(f.mime, t) || Extension(f.name) == t)
  }

  /** validateFile: the size first, then the type, then the number of files
      already stored. */
  function ValidateFile(f: File, stored: nat, limits: Limits): (r: Option<UploadError>)
    ensures r == Some(TooLarge) <==> f.size > limits.maxFileSize
    ensures r == Some(TypeNotAllowed) <==> f.size <= limits.maxFileSize && !TypeAllowed(limits.allowedTypes, f)
    ensures r == Some(TooManyFiles) <==>
      f.size <= limits.maxFileSize && TypeAllowed(limits.allowedTypes, f) && stored >= limits.maxFiles
    ensures r.None? <==> f.size <= limits.maxFileSize && TypeAllowed(limits.allowedTypes, f) && stored < limits.maxFiles
  {
    if f.size > limits.maxFileSize then Some(TooLarge)
    else if !TypeAllowed(limits.allowedTypes, f) then Some(TypeNotAllowed)
    else if stored >= limits.maxFiles then Some(TooManyFiles)
    else None
  }

  lemma {:induction false} SplitEndsEmpty(a: string, c: char)
    ensures [] in Split(a + [c], c)
    decreases |a|
  {
    var s := a + [c];
    var head := BeforeFirst(s, c);
    BeforeFirstSpec(s, c);
    assert s[|a|] == c;
    var rest := s[|head| + 1..];
    if rest != [] {
      var a' := a[|head| + 1..];
      assert rest == a' + [c];
      SplitEndsEmpty(a', c);
    }
  }

  /** A trailing comma in the setting lists the empty type, which occurs in
      every MIME type, so then every type is allowed. */
  lemma TrailingCommaAllowsAll(listed: string, f: File)
    ensures TypeAllowed(listed + ",", f)
  {
    var parts := Split(listed + ",", ',');
    SplitEndsEmpty(listed, ',');
    var i :| 0 <= i < |parts| && parts[i] == [];
    assert Tokens(listed + ",")[i] == Trim([]);
    assert Trim([]) == [];
    ContainsEmpty(f.mime);
  }

  // ---------------------------------------------------------------------
  // Resource type and icon

  /** getResourceType: the backend's resource kinds. */
  function ResourceType(mime: string): (r: string)
    ensures r in {"video", "pdf", "image", "document"}
    ensures r == "pdf" <==> mime == "application/pdf"
  {
    assert !IsPrefix("video/", "application/pdf") by {
      assert "application/pdf"[..6][0] == 'a';
    }
    if IsPrefix("video/", mime) then "video"
    else if mime == "application/pdf" then "pdf"
    else if IsPrefix("image/", mime) then "image"
    else "document"
  }

  datatype Icon = ImageIcon | VideoIcon | AudioIcon | PdfIcon | DocumentIcon | SheetIcon | SlidesIcon | ArchiveIcon | FolderIcon

  /** getFileIcon, on the type text it is given. */
  function FileIcon(kind: string): Icon
  {
    if IsPrefix("image/", kind) then ImageIcon
    else if IsPrefix("video/", kind) then VideoIcon
    else if IsPrefix("audio/", kind) then AudioIcon
    else if Contains(kind, "pdf") then PdfIcon
    else if Contains(kind, "word") || Contains(kind, "document") then DocumentIcon
    else if Contains(kind, "excel") || Contains(kind, "spreadsheet") then SheetIcon
    else if Contains(kind, "powerpoint") || Contains(kind, "presentation") then SlidesIcon
    else if Contains(kind, "zip") || Contains(kind, "rar") then ArchiveIcon
    else FolderIcon
  }

  /** The list shows the icon of the stored kind, not of the MIME type: a
      stored video or image shows the folder icon, while the MIME types
      themselves have their own icons. */
  lemma StoredKindIcon()
    ensures FileIcon(ResourceType("video/mp4")) == FolderIcon && FileIcon("video/mp4") == VideoIcon
    ensures FileIcon(ResourceType("image/png")) == FolderIcon && FileIcon("image/png") == ImageIcon
  {
    assert ResourceType("video/mp4") == "video" by { assert "video/mp4"[..6] == "video/"; }
    assert ResourceType("image/png") == "image" by { assert "image/png"[..6] == "image/"; }
    assert "video/mp4"[..6] == "video/";
    assert "image/png"[..6] == "image/";
    NotContainsShort("video", "document");
    NotContainsShort("video", "spreadsheet");
    NotContainsShort("video", "powerpoint");
    NotContainsShort("video", "presentation");
    NotContainsShort("image", "document");
    NotContainsShort("image", "spreadsheet");
    NotContainsShort("image", "powerpoint");
    NotContainsShort("image", "presentation");
    NotContainsAny("video", "pdf");
    NotContainsAny("video", "word");
    NotContainsShort("video", "excel");
    NotContainsAny("video", "zip");
    NotContainsAny("video", "rar");
    NotContainsAny("image", "pdf");
    NotContainsAny("image", "word");
    NotContainsShort("image", "excel");
    NotContainsAny("image", "zip");
    NotContainsAny("image", "rar");
  }

  lemma NotContainsShort(s: string, sub: string)
    requires |sub| > |s| || (|sub| == |s| && sub != s)
    ensures !Contains(s, sub)
  {
  }

  lemma NotContainsAny(s: string, sub: string)
    requires sub != [] && forall i :: 0 <= i < |s| ==> s[i] != sub[0]
    ensures !Contains(s, sub)
  {
    forall i | 0 <= i <= |s| - |sub|
      ensures !OccursAt(s, sub, i)
    {
      assert s[i..i + |sub|][0] == s[i];
    }
  }

  // ---------------------------------------------------------------------
  // The batch upload

  /** What the browser makes for one accepted file: its id, object URL and
      upload time. */
  datatype Stamp = Stamp(id: int, url: string, uploadedAt: string)

  function ResourceOf(f: File, s: Stamp): Resource
  {
    Resource(s.id, f.name, s.url, ResourceType(f.mime), f.size, s.uploadedAt)
  }

  /** The resources made from the first `n` files: each file that passes
      the checks, against the count stored before the batch, in order. */
  function Accepted(files: seq<File>, stamps: seq<Stamp>, n: nat, stored: nat, limits: Limits): seq<Resource>
    requires n <= |files| == |stamps|
  {
    if n == 0 then []
    else
      var before := Accepted(files, stamps, n - 1, stored, limits);
      if ValidateFile(files[n - 1], stored, limits).None? then before + [ResourceOf(files[n - 1], stamps[n - 1])]
      else before
  }

  /** The alerts raised for the first `n` files, in order. */
  function Rejected(files: seq<File>, n: nat, stored: nat, limits: Limits): seq<UploadError>
    requires n <= |files|
  {
    if n == 0 then []
    else
      var before := Rejected(files, n - 1, stored, limits);
      match ValidateFile(files[n - 1], stored, limits)
      case Some(e) => before + [e]
      case None => before
  }

  /** handleFileUpload: each file is checked and either alerted or turned
      into a resource; the list is handed on, after the stored resources,
      only when some file was accepted (`None`: nothing is handed on). */
  method HandleFileUpload(resources: seq<Resource>, files: seq<File>, stamps: seq<Stamp>, limits: Limits)
    returns (updated: Option<seq<Resource>>, alerts: seq<UploadError>)
    requires |stamps| == |files|
    ensures alerts == Rejected(files, |files|, |resources|, limits)
    ensures var accepted := Accepted(files, stamps, |files|, |resources|, limits);
      updated == if accepted == [] then None else Some(resources + accepted)
  {
    var newResources: seq<Resource> := [];
    alerts := [];
    for i := 0 to |files|
      invariant newResources == Accepted(files, stamps, i, |resources|, limits)
      invariant alerts == Rejected(files, i, |resources|, limits)
    {
      var error := ValidateFile(files[i], |resources|, limits);
      if error.Some? {
        alerts := alerts + [error.value];
        continue;
      }
      newResources := newResources + [ResourceOf(files[i], stamps[i])];
    }
    if |newResources| > 0 {
      updated := Some(resources + newResources);
    } else {
      updated := None;
    }
  }

  /** Every file ends up either accepted or alerted, never both; the
      accepted ones pass every check and keep their order. */
  lemma EachFileOnce(files: seq<File>, stamps: seq<Stamp>, n: nat, stored: nat, limits: Limits)
    requires n <= |files| == |stamps|
    ensures |Accepted(files, stamps, n, stored, limits)| + |Rejected(files, n, stored, limits)| == n
    ensures forall k :: 0 <= k < n && ValidateFile(files[k], stored, limits).None? ==>
      ResourceOf(files[k], stamps[k]) in Accepted(files, stamps, n, stored, limits)
    ensures stored >= limits.maxFiles ==> Accepted(files, stamps, n, stored, limits) == []
  {
    BatchSplits(files, stamps, n, stored, limits);
    ValidFilesAccepted(files, stamps, n, stored, limits);
    if stored >= limits.maxFiles {
      FullAcceptsNone(files, stamps, n, stored, limits);
    }
  }

  lemma {:induction false} BatchSplits(files: seq<File>, stamps: seq<Stamp>, n: nat, stored: nat, limits: Limits)
    requires n <= |files| == |stamps|
    ensures |Accepted(files, stamps, n, stored, limits)| + |Rejected(files, n, stored, limits)| == n
  {
    if n > 0 {
      BatchSplits(files, stamps, n - 1, stored, limits);
    }
  }

  lemma {:induction false} ValidFilesAccepted(files: seq<File>, stamps: seq<Stamp>, n: nat, stored: nat, limits: Limits)
    requires n <= |files| == |stamps|
    ensures forall k :: 0 <= k < n && ValidateFile(files[k], stored, limits).None? ==>
      ResourceOf(files[k], stamps[k]) in Accepted(files, stamps, n, stored, limits)
  {
    if n > 0 {
      ValidFilesAccepted(files, stamps, n - 1, stored, limits);
      var before := Accepted(files, stamps, n - 1, stored, limits);
      var after := Accepted(files, stamps, n, stored, limits);
      var last := ResourceOf(files[n - 1], stamps[n - 1]);
      if ValidateFile(files[n - 1], stored, limits).None? {
        assert after == before + [last];
        assert last in after;
      } else {
        assert after == before;
      }
      forall k | 0 <= k < n - 1 && ValidateFile(files[k], stored, limits).None?
        ensures ResourceOf(files[k], stamps[k]) in after
      {
        assert ResourceOf(files[k], stamps[k]) in before;
      }
    }
  }

  lemma {:induction false} FullAcceptsNone(files: seq<File>, stamps: seq<Stamp>, n: nat, stored: nat, limits: Limits)
    requires n <= |files| == |stamps|
    requires stored >= limits.maxFiles
    ensures Accepted(files, stamps, n, stored, limits) == []
  {
    if n > 0 {
      FullAcceptsNone(files, stamps, n - 1, stored, limits);
    }
  }

  /** The count is checked against the resources stored before the batch,
      so one batch can go past the limit: with nothing stored and a limit
      of one file, two acceptable files are both added. */
  lemma BatchExceedsLimit(f: File, g: File, s: Stamp, t: Stamp)
    requires f.size <= 1 && g.size <= 1
    ensures var limits := Limits("all", 1, 1);
      |Accepted([f, g], [s, t], 2, 0, limits)| == 2 > limits.maxFiles
  {
    var limits := Limits("all", 1, 1);
    assert ValidateFile(f, 0, limits).None? && ValidateFile(g, 0, limits).None?;
    assert Accepted([f, g], [s, t], 1, 0, limits) == [ResourceOf(f, s)];
  }

  /** removeResource: every resource with that id goes, and only those. */
  function RemoveResource(resources: seq<Resource>, id: int): (r: seq<Resource>)
    ensures forall x :: x in r <==> x in resources && x.id != id
    ensures |r| <= |resources|
  {
    Filter(resources, (x: Resource) => x.id != id)
  }
}
