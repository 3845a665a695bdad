// Classification of lesson-resource URLs (client/src/utils/fileTypeDetection.js):
// a URL becomes one of fourteen resource tags, first by well-known hosts,
// then by the extension of the URL with its query and fragment removed.
module FileTypeDetection {
  import opened Common

  datatype FileType =
    | Pdf | Document | Spreadsheet | Presentation | Image | Video | Audio
    | Archive | Code | Ebook | Tutorial | Article | Reference | Link

  /** The tag's string, as the client stores it in a resource's `type`. */
  function TagName(t: FileType): string
  {
    match t
    case Pdf => "pdf"
    case Document => "document"
    case Spreadsheet => "spreadsheet"
    case Presentation => "presentation"
    case Image => "image"
    case Video => "video"
    case Audio => "audio"
    case Archive => "archive"
    case Code => "code"
    case Ebook => "ebook"
    case Tutorial => "tutorial"
    case Article => "article"
    case Reference => "reference"
    case Link => "link"
  }

  /** Reads a tag back from its string; the own keys of the icon and
      display-name tables. */
  function ParseTag(s: string): (r: Option<FileType>)
    ensures r.Some? ==> TagName(r.value) == s
    ensures r.None? ==> forall t :: TagName(t) != s
  {
    if s == "pdf" then Some(Pdf)
    else if s == "document" then Some(Document)
    else if s == "spreadsheet" then Some(Spreadsheet)
    else if s == "presentation" then Some(Presentation)
    else if s == "image" then Some(Image)
    else if s == "video" then Some(Video)
    else if s == "audio" then Some(Audio)
    else if s == "archive" then Some(Archive)
    else if s == "code" then Some(Code)
    else if s == "ebook" then Some(Ebook)
    else if s == "tutorial" then Some(Tutorial)
    else if s == "article" then Some(Article)
    else if s == "reference" then Some(Reference)
    else if s == "link" then Some(Link)
    else None
  }

  lemma TagRoundTrip(t: FileType)
    ensures ParseTag(TagName(t)) == Some(t)
  {
    var r := ParseTag(TagName(t));
    assert r.Some?;
    assert TagName(r.value) == TagName(t);
  }

  /** The own entries of `fileTypeMap`: extension to tag. */
  function ExtensionType(ext: string): (r: Option<FileType>)
    ensures r.Some? ==> r.value !in {Tutorial, Article, Reference, Link}
  {
    if ext == "pdf" then Some(Pdf)
    else if ext in {"doc", "docx", "txt", "rtf", "odt"} then Some(Document)
    else if ext in {"xls", "xlsx", "csv", "ods"} then Some(Spreadsheet)
    else if ext in {"ppt", "pptx", "odp"} then Some(Presentation)
    else if ext in {"jpg", "jpeg", "png", "gif", "svg", "webp", "bmp"} then Some(Image)
    else if ext in {"mp4", "avi", "mov", "wmv", "flv", "webm", "mkv", "m4v"} then Some(Video)
    else if ext in {"mp3", "wav", "ogg", "flac", "aac", "m4a"} then Some(Audio)
    else if ext in {"zip", "rar", "7z", "tar", "gz"} then Some(Archive)
    else if ext in {"js", "ts", "jsx", "tsx", "html", "css", "scss", "py", "java", "cpp", "c",
                    "php", "rb", "go", "rs", "swift", "kt", "sql", "json", "xml", "yaml", "yml"}
    then Some(Code)
    else if ext in {"epub", "mobi", "azw", "azw3"} then Some(Ebook)
    else None
  }

  /** `url.split('?')[0].split('#')[0].toLowerCase()`. */
  function CleanUrl(url: string): (r: string)
    ensures |r| <= |url|
  {
    ToLower(BeforeFirst(BeforeFirst(url, '?'), '#'))
  }

  /** `cleanUrl.split('.').pop()`. */
  function Extension(url: string): (r: string)
  {
    AfterLast(CleanUrl(url), '.')
  }

  /** The clean URL has no query or fragment left, and the extension has no
      dot either. */
  lemma ExtensionShape(url: string)
    ensures '?' !in CleanUrl(url) && '#' !in CleanUrl(url)
    ensures '.' !in Extension(url) && '?' !in Extension(url) && '#' !in Extension(url)
  {
    var noQuery := BeforeFirst(url, '?');
    var noFragment := BeforeFirst(noQuery, '#');
    BeforeFirstSpec(url, '?');
    BeforeFirstSpec(noQuery, '#');
    var clean := CleanUrl(url);
    forall i | 0 <= i < |clean|
      ensures clean[i] != '?' && clean[i] != '#'
    {
      assert noFragment[i] == noQuery[i];
      assert clean[i] == ToLowerChar(noFragment[i]);
    }
    AfterLastSpec(clean, '.');
    var ext := Extension(url);
    forall i | 0 <= i < |ext|
      ensures ext[i] != '?' && ext[i] != '#'
    {
      assert ext[i] == clean[|clean| - |ext| + i];
    }
  }

  /** The host rules, tested in order on the original (not lower-cased) URL;
      None means that no rule decided and the extension table is consulted. */
  function HostRule(url: string): Option<FileType>
  {
    if Contains(url, "youtube.com") || Contains(url, "youtu.be") then Some(Video)
    else if Contains(url, "vimeo.com") then Some(Video)
    else if Contains(url, "github.com") || Contains(url, "gitlab.com") || Contains(url, "bitbucket.org") then Some(Code)
    else if Contains(url, "stackoverflow.com") || Contains(url, "stackexchange.com") then Some(Tutorial)
    else if Contains(url, "medium.com") || Contains(url, "dev.to") || Contains(url, "hashnode.com") then Some(Article)
    else if Contains(url, "wikipedia.org") then Some(Reference)
    else if Contains(url, "docs.google.com") then
      if Contains(url, "/document/") then Some(Document)
      else if Contains(url, "/spreadsheets/") then Some(Spreadsheet)
      else if Contains(url, "/presentation/") then Some(Presentation)
      else None
    else None
  }

  /** detectFileType. `None` stands for a value that is not a string (null,
      undefined, a number, ...); the empty string is falsy and also gives 'link'.
      The final lookup consults only the table's own entries (see the
      as-written variant below for what the source's object lookup does). */
  function DetectFileType(url: Option<string>): (r: FileType)
    ensures url.None? || url == Some([]) ==> r == Link
    ensures url.Some? && url.value != [] && HostRule(url.value).Some? ==> r == HostRule(url.value).value
    ensures url.Some? && url.value != [] && HostRule(url.value).None? ==>
      r == (if ExtensionType(Extension(url.value)).Some? then ExtensionType(Extension(url.value)).value else Link)
  {
    match url
    case None => Link
    case Some(u) =>
      if u == [] then Link
      else match HostRule(u)
        case Some(t) => t
        case None =>
          match ExtensionType(Extension(u))
          case Some(t) => t
          case None => Link
  }

  // ---------------------------------------------------------------------
  // The source as written: `fileTypeMap[extension] || 'link'` is a plain
  // object lookup, so the keys every object inherits are found as well.

  /** Keys of Object.prototype that a lower-cased extension can spell. */
  predicate IsInheritedKey(k: string)
  {
    k == "constructor" || k == "__proto__"
  }

  /** A value the source's lookup can produce: a tag, or an inherited
      non-string member (the Object function, the prototype object). */
  datatype LookupValue = Tag(tag: FileType) | InheritedMember(key: string)

  function DetectFileTypeAsWritten(url: Option<string>): (r: LookupValue)
    ensures r.InheritedMember? ==> url.Some? && IsInheritedKey(Extension(url.value))
  {
    match url
    case None => Tag(Link)
    case Some(u) =>
      if u == [] then Tag(Link)
      else match HostRule(u)
        case Some(t) => Tag(t)
        case None =>
          var ext := Extension(u);
          match ExtensionType(ext)
          case Some(t) => Tag(t)
          case None => if IsInheritedKey(ext) then InheritedMember(ext) else Tag(Link)
  }

  /** Outside the inherited keys the as-written lookup and the model agree. */
  lemma AsWrittenAgreesOffPrototype(url: Option<string>)
    requires url.Some? ==> !IsInheritedKey(Extension(url.value))
    ensures DetectFileTypeAsWritten(url) == Tag(DetectFileType(url))
  {
  }

  // ---------------------------------------------------------------------
  // Helpers for reasoning about concrete URLs

  lemma ContainsOnlyOwnChars(s: string, sub: string)
    ensures Contains(s, sub) ==> forall c :: c in sub ==> c in s
  {
    if Contains(s, sub) {
      var i := ContainsWitness(s, sub);
      forall c | c in sub ensures c in s {
        var k :| 0 <= k < |sub| && sub[k] == c;
        assert s[i + k] == sub[k];
      }
    }
  }

  lemma CharWitnessesAbsence(s: string, sub: string, c: char)
    requires c in sub && c !in s
    ensures !Contains(s, sub)
  {
    ContainsOnlyOwnChars(s, sub);
  }

  lemma {:induction false} BeforeFirstSplit(pre: string, c: char, post: string)
    requires c !in pre
    ensures BeforeFirst(pre + [c] + post, c) == pre
  {
    if pre != [] {
      assert (pre + [c] + post)[1..] == pre[1..] + [c] + post;
      BeforeFirstSplit(pre[1..], c, post);
    }
  }

  lemma {:induction false} BeforeFirstAbsent(s: string, c: char)
    requires c !in s
    ensures BeforeFirst(s, c) == s
  {
    if s != [] {
      BeforeFirstAbsent(s[1..], c);
    }
  }

  lemma {:induction false} AfterLastSplit(pre: string, c: char, post: string)
    requires c !in post
    ensures AfterLast(pre + [c] + post, c) == post
  {
    if post != [] {
      var s := pre + [c] + post;
      assert s[..|s| - 1] == pre + [c] + post[..|post| - 1];
      AfterLastSplit(pre, c, post[..|post| - 1]);
    } else {
      assert (pre + [c] + post)[|pre + [c] + post| - 1] == c;
    }
  }

  // ---------------------------------------------------------------------
  // Properties

  /** No host rule applies to a URL lacking the letters y, v, g, k, m, h and w:
      every host keyword contains one of them. */
  lemma NoHostRuleWithoutLetters(u: string)
    requires 'y' !in u && 'v' !in u && 'g' !in u && 'k' !in u
    requires 'm' !in u && 'h' !in u && 'w' !in u
    ensures HostRule(u) == None
  {
    CharWitnessesAbsence(u, "youtube.com", 'y');
    CharWitnessesAbsence(u, "youtu.be", 'y');
    CharWitnessesAbsence(u, "vimeo.com", 'v');
    CodeHostsNeedLetter(u, 'g');
    CharWitnessesAbsence(u, "stackoverflow.com", 'k');
    CharWitnessesAbsence(u, "stackexchange.com", 'k');
    CharWitnessesAbsence(u, "medium.com", 'm');
    CharWitnessesAbsence(u, "dev.to", 'v');
    CharWitnessesAbsence(u, "hashnode.com", 'h');
    CharWitnessesAbsence(u, "wikipedia.org", 'w');
    CharWitnessesAbsence(u, "docs.google.com", 'g');
  }

  /** Each code host contains 'b'; github.com and gitlab.com contain 'g',
      bitbucket.org contains 'k'. */
  lemma CodeHostsNeedLetter(u: string, c: char)
    requires c == 'g' || c == 'b'
    requires c !in u && (c == 'g' ==> 'k' !in u)
    ensures !Contains(u, "github.com") && !Contains(u, "gitlab.com") && !Contains(u, "bitbucket.org")
  {
    CharWitnessesAbsence(u, "github.com", c);
    CharWitnessesAbsence(u, "gitlab.com", c);
    CharWitnessesAbsence(u, "bitbucket.org", if c == 'g' then 'k' else c);
  }

  /** Without a query or fragment, the clean URL is the lower-cased URL. */
  lemma CleanUrlWithoutQuery(u: string)
    requires '?' !in u && '#' !in u
    ensures CleanUrl(u) == ToLower(u)
  {
    BeforeFirstAbsent(u, '?');
    BeforeFirstAbsent(u, '#');
  }

  /** A lower-case URL without query or fragment: the extension is what
      follows the last dot. */
  lemma ExtensionAfterDot(pre: string, ext: string)
    requires '?' !in pre && '#' !in pre && '?' !in ext && '#' !in ext && '.' !in ext
    requires ToLower(pre) == pre && ToLower(ext) == ext
    ensures Extension(pre + ['.'] + ext) == ext
  {
    var u := pre + ['.'] + ext;
    CleanUrlWithoutQuery(u);
    ToLowerAppend(pre + ['.'], ext);
    ToLowerAppend(pre, ['.']);
    assert ToLower(['.']) == ['.'];
    AfterLastSplit(pre, '.', ext);
  }

  /** Everything from the first '?' on is dropped, a '#' in the query included. */
  lemma CleanUrlOfQuery(path: string, rest: string)
    requires '?' !in path && '#' !in path
    ensures CleanUrl(path + ['?'] + rest) == ToLower(path)
  {
    BeforeFirstSplit(path, '?', rest);
    BeforeFirstAbsent(path, '#');
  }

  /** When no host rule decides, the extension table does. */
  lemma ExtensionDecidesWithoutHostRule(u: string, ext: string)
    requires u != [] && HostRule(u) == None && Extension(u) == ext
    ensures DetectFileType(Some(u)) ==
      (if ExtensionType(ext).Some? then ExtensionType(ext).value else Link)
  {
  }

  lemma QueryExampleClean(u: string)
    requires u == "X.PDF?a=1#b"
    ensures CleanUrl(u) == "x" + ['.'] + "pdf"
  {
    assert u == "X.PDF" + ['?'] + "a=1#b";
    CleanUrlOfQuery("X.PDF", "a=1#b");
    assert ToLower("X.PDF") == "x" + ['.'] + "pdf";
  }

  lemma QueryExampleExtension(u: string)
    requires u == "X.PDF?a=1#b"
    ensures Extension(u) == "pdf"
  {
    QueryExampleClean(u);
    AfterLastSplit("x", '.', "pdf");
  }

  /** Query and fragment are dropped and the extension compared lower-cased. */
  lemma UppercaseExtensionWithQueryAndFragment(u: string)
    requires u == "X.PDF?a=1#b"
    ensures DetectFileType(Some(u)) == Pdf
  {
    NoHostRuleWithoutLetters(u);
    QueryExampleExtension(u);
    ExtensionDecidesWithoutHostRule(u, "pdf");
  }

  /** A host rule wins over the extension: a PDF on github.com is code. */
  lemma GithubPdfIsCode(u: string)
    requires u == "github.com/a.pdf"
    ensures DetectFileType(Some(u)) == Code
  {
    CharWitnessesAbsence(u, "youtube.com", 'y');
    CharWitnessesAbsence(u, "youtu.be", 'y');
    CharWitnessesAbsence(u, "vimeo.com", 'v');
    assert u == [] + "github.com" + "/a.pdf";
    ContainsMiddle([], "github.com", "/a.pdf");
  }

  lemma ShortYoutubeLinkIsVideo(u: string)
    requires u == "youtu.be/x.pdf"
    ensures DetectFileType(Some(u)) == Video
  {
    assert u == [] + "youtu.be" + "/x.pdf";
    ContainsMiddle([], "youtu.be", "/x.pdf");
  }

  lemma LowerGithub()
    ensures ToLower("GITHUB.COM") == "github.com"
  {
    assert ToLower("GITHUB") == "github";
    assert ToLower(".COM") == ".com";
    ToLowerAppend("GITHUB", ".COM");
  }

  lemma GithubIsCodeHost(u: string)
    requires u == "github.com"
    ensures HostRule(u) == Some(Code)
  {
    CharWitnessesAbsence(u, "youtube.com", 'y');
    CharWitnessesAbsence(u, "youtu.be", 'y');
    CharWitnessesAbsence(u, "vimeo.com", 'v');
    assert u == [] + "github.com" + [];
    ContainsMiddle([], "github.com", []);
  }

  /** Host rules read the original text, not the lower-cased copy: the
      upper-case host matches no rule although its lower-case form does. */
  lemma UppercaseHostIgnored(u: string)
    requires u == "GITHUB.COM"
    ensures HostRule(u) == None && HostRule(ToLower(u)) == Some(Code)
  {
    NoHostRuleWithoutLetters(u);
    LowerGithub();
    GithubIsCodeHost(ToLower(u));
  }

  /** The docs.google.com rules: once no earlier host matched, a document,
      spreadsheet or presentation path is classified by the path, and any
      other path gets no host rule. */
  lemma DocsHostPaths(u: string)
    requires !Contains(u, "youtube.com") && !Contains(u, "youtu.be") && !Contains(u, "vimeo.com")
    requires !Contains(u, "github.com") && !Contains(u, "gitlab.com") && !Contains(u, "bitbucket.org")
    requires !Contains(u, "stackoverflow.com") && !Contains(u, "stackexchange.com")
    requires !Contains(u, "medium.com") && !Contains(u, "dev.to") && !Contains(u, "hashnode.com")
    requires !Contains(u, "wikipedia.org") && Contains(u, "docs.google.com")
    ensures Contains(u, "/document/") ==> HostRule(u) == Some(Document)
    ensures !Contains(u, "/document/") && Contains(u, "/spreadsheets/") ==> HostRule(u) == Some(Spreadsheet)
    ensures !Contains(u, "/document/") && !Contains(u, "/spreadsheets/") && Contains(u, "/presentation/")
      ==> HostRule(u) == Some(Presentation)
    ensures !Contains(u, "/document/") && !Contains(u, "/spreadsheets/") && !Contains(u, "/presentation/")
      ==> HostRule(u) == None
  {
  }

  /** The host-rule chain for a docs.google.com URL that names none of the
      other hosts and none of the three document paths. */
  lemma DocsHostWithoutDocumentPath(u: string)
    requires !Contains(u, "youtube.com") && !Contains(u, "youtu.be") && !Contains(u, "vimeo.com")
    requires !Contains(u, "github.com") && !Contains(u, "gitlab.com") && !Contains(u, "bitbucket.org")
    requires !Contains(u, "stackoverflow.com") && !Contains(u, "stackexchange.com")
    requires !Contains(u, "medium.com") && !Contains(u, "dev.to") && !Contains(u, "hashnode.com")
    requires !Contains(u, "wikipedia.org") && Contains(u, "docs.google.com")
    requires !Contains(u, "/document/") && !Contains(u, "/spreadsheets/") && !Contains(u, "/presentation/")
    ensures HostRule(u) == None
  {
  }

  /** Every host keyword other than docs.google.com, and the three document
      paths, contain one of these letters. */
  lemma NoOtherHostWithoutLetters(u: string)
    requires 'y' !in u && 'v' !in u && 'b' !in u && 'k' !in u
    requires 'i' !in u && 'a' !in u && 'w' !in u && 'u' !in u
    ensures !Contains(u, "youtube.com") && !Contains(u, "youtu.be") && !Contains(u, "vimeo.com")
    ensures !Contains(u, "github.com") && !Contains(u, "gitlab.com") && !Contains(u, "bitbucket.org")
    ensures !Contains(u, "stackoverflow.com") && !Contains(u, "stackexchange.com")
    ensures !Contains(u, "medium.com") && !Contains(u, "dev.to") && !Contains(u, "hashnode.com")
    ensures !Contains(u, "wikipedia.org")
    ensures !Contains(u, "/document/") && !Contains(u, "/spreadsheets/") && !Contains(u, "/presentation/")
  {
    CharWitnessesAbsence(u, "youtube.com", 'y');
    CharWitnessesAbsence(u, "youtu.be", 'y');
    CharWitnessesAbsence(u, "vimeo.com", 'v');
    CodeHostsNeedLetter(u, 'b');
    CharWitnessesAbsence(u, "stackoverflow.com", 'k');
    CharWitnessesAbsence(u, "stackexchange.com", 'k');
    CharWitnessesAbsence(u, "medium.com", 'i');
    CharWitnessesAbsence(u, "dev.to", 'v');
    CharWitnessesAbsence(u, "hashnode.com", 'a');
    CharWitnessesAbsence(u, "wikipedia.org", 'w');
    DocumentPathsNeedLetters(u);
  }

  lemma DocumentPathsNeedLetters(u: string)
    requires 'u' !in u && 'a' !in u
    ensures !Contains(u, "/document/") && !Contains(u, "/spreadsheets/") && !Contains(u, "/presentation/")
  {
    CharWitnessesAbsence(u, "/document/", 'u');
    CharWitnessesAbsence(u, "/spreadsheets/", 'a');
    CharWitnessesAbsence(u, "/presentation/", 'a');
  }

  lemma GoogleFormLettersA(u: string)
    requires u == "docs.google.com/f"
    ensures 'y' !in u && 'v' !in u && 'b' !in u && 'k' !in u
  {
  }

  lemma GoogleFormLettersB(u: string)
    requires u == "docs.google.com/f"
    ensures 'i' !in u && 'a' !in u && 'w' !in u && 'u' !in u
  {
  }

  lemma GoogleFormHasNoHostRule(u: string)
    requires u == "docs.google.com/f"
    ensures HostRule(u) == None
  {
    GoogleFormLettersA(u);
    GoogleFormLettersB(u);
    NoOtherHostWithoutLetters(u);
    assert u == [] + "docs.google.com" + "/f";
    ContainsMiddle([], "docs.google.com", "/f");
    DocsHostWithoutDocumentPath(u);
  }

  lemma GoogleFormExtension(u: string)
    requires u == "docs.google.com/f"
    ensures Extension(u) == "com/f"
  {
    assert u == "docs.google" + ['.'] + "com/f";
    assert ToLower("docs.google") == "docs.google";
    assert ToLower("com/f") == "com/f";
    ExtensionAfterDot("docs.google", "com/f");
  }

  /** A docs.google.com URL that is not a document, sheet or slide deck
      falls through to the extension table, here to 'link'. */
  lemma GoogleFormFallsThrough(u: string)
    requires u == "docs.google.com/f"
    ensures DetectFileType(Some(u)) == Link
  {
    GoogleFormHasNoHostRule(u);
    GoogleFormExtension(u);
    ExtensionDecidesWithoutHostRule(u, "com/f");
  }

  /** Tutorial, article and reference come only from host rules. */
  lemma HostOnlyTags(u: string)
    ensures DetectFileType(Some(u)) == Tutorial ==>
      Contains(u, "stackoverflow.com") || Contains(u, "stackexchange.com")
    ensures DetectFileType(Some(u)) == Reference ==> Contains(u, "wikipedia.org")
    ensures DetectFileType(Some(u)) == Article ==>
      Contains(u, "medium.com") || Contains(u, "dev.to") || Contains(u, "hashnode.com")
  {
  }

  lemma ConstructorExtension(u: string)
    requires u == "a.constructor"
    ensures Extension(u) == "constructor"
  {
    assert u == "a" + ['.'] + "constructor";
    assert ToLower("a") == "a";
    assert ToLower("constructor") == "constructor";
    ExtensionAfterDot("a", "constructor");
  }

  /** Whenever no host rule applies and the extension is `constructor`,
      the source's lookup yields that inherited member instead of a tag. */
  lemma AsWrittenInheritedExtension(u: string)
    requires u != [] && HostRule(u) == None && Extension(u) == "constructor"
    ensures DetectFileTypeAsWritten(Some(u)) == InheritedMember("constructor")
    ensures DetectFileType(Some(u)) == Link
  {
    assert ExtensionType("constructor") == None;
  }

  /** The source's lookup returns a value that is not a tag at all for the
      URL `a.constructor`. */
  lemma AsWrittenConstructorExtension(u: string)
    requires u == "a.constructor"
    ensures DetectFileTypeAsWritten(Some(u)) == InheritedMember("constructor")
  {
    NoHostRuleWithoutLetters(u);
    ConstructorExtension(u);
    AsWrittenInheritedExtension(u);
  }

  // ---------------------------------------------------------------------
  // Icons and display names

  const DefaultIcon: string := "\U{1F517}"

  function IconOf(t: FileType): string
  {
    match t
    case Pdf => "\U{1F4C4}"
    case Document => "\U{1F4DD}"
    case Spreadsheet => "\U{1F4CA}"
    case Presentation => "\U{1F4FD}\U{FE0F}"
    case Image => "\U{1F5BC}\U{FE0F}"
    case Video => "\U{1F3A5}"
    case Audio => "\U{1F3B5}"
    case Archive => "\U{1F4E6}"
    case Code => "\U{1F4BB}"
    case Ebook => "\U{1F4DA}"
    case Tutorial => "\U{1F4D6}"
    case Article => "\U{1F4F0}"
    case Reference => "\U{1F517}"
    case Link => "\U{1F310}"
  }

  function DisplayNameOf(t: FileType): string
  {
    match t
    case Pdf => "PDF Document"
    case Document => "Document"
    case Spreadsheet => "Spreadsheet"
    case Presentation => "Presentation"
    case Image => "Image"
    case Video => "Video"
    case Audio => "Audio"
    case Archive => "Archive"
    case Code => "Code"
    case Ebook => "E-book"
    case Tutorial => "Tutorial"
    case Article => "Article"
    case Reference => "Reference"
    case Link => "Website Link"
  }

  /** getFileTypeIcon: the table's icon for a known tag name, else the default. */
  function FileTypeIcon(name: string): string
  {
    match ParseTag(name)
    case Some(t) => IconOf(t)
    case None => DefaultIcon
  }

  /** getFileTypeDisplayName: the table's name for a known tag name, else 'Link'. */
  function FileTypeDisplayName(name: string): string
  {
    match ParseTag(name)
    case Some(t) => DisplayNameOf(t)
    case None => "Link"
  }

  /** Both tables cover every tag detectFileType can return, and only those. */
  lemma LookupsTotalOnTags(t: FileType)
    ensures FileTypeIcon(TagName(t)) == IconOf(t)
    ensures FileTypeDisplayName(TagName(t)) == DisplayNameOf(t) != "Link"
  {
    TagRoundTrip(t);
  }

  lemma LookupsDefaultOffTags(name: string)
    requires forall t :: TagName(t) != name
    ensures FileTypeIcon(name) == DefaultIcon
    ensures FileTypeDisplayName(name) == "Link"
  {
  }

  lemma DisplayNamesDistinct(t1: FileType, t2: FileType)
    requires t1 != t2
    ensures DisplayNameOf(t1) != DisplayNameOf(t2)
  {
  }
}
